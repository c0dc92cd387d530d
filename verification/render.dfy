/** The render loop of src/helper.ts: `updateRenderSettings` and
    `RTRenderPass`. The canvas is modelled as the image the pass produces,
    one column per `w`, one pixel per `h` in each column. */
module Render {
  import opened Types
  import opened Intersection
  import opened Shading
  import opened Reflection
  import opened Supersampler
  import opened SampleGrid

  // ---------------------------------------------------------------------
  // Settings
  // ---------------------------------------------------------------------

  /** No feature is switched on in the GUI. */
  predicate AllOff(settings: Settings) {
    && !settings.correctSpheres && !settings.phong && !settings.alllights
    && !settings.shadows && !settings.mirrors
  }

  /** `updateRenderSettings`: copies the feature flags and the two sliders
      from the GUI, marks the render basic exactly when every feature is off,
      and resets the reflection counter for a fresh render. */
  function UpdateRenderSettings(settings: Settings, rs: RenderSettings): (r: RenderSettings)
    ensures r.basic <==> AllOff(settings)
    ensures && r.correctSphere == settings.correctSpheres && r.phong == settings.phong
            && r.allLights == settings.alllights && r.shadows == settings.shadows
            && r.mirrors == settings.mirrors
    ensures r.maxRecursions == settings.maxDepth && r.subsamples == settings.subsamples
    ensures r.recursions == 0
  {
    rs.(basic := AllOff(settings), correctSphere := settings.correctSpheres, phong := settings.phong,
        allLights := settings.alllights, shadows := settings.shadows, mirrors := settings.mirrors,
        maxRecursions := settings.maxDepth, subsamples := settings.subsamples, recursions := 0)
  }

  /** Every field is overwritten, so the update does not depend on the
      settings of the previous render, and repeating it changes nothing. */
  lemma UpdateForgetsPrevious(settings: Settings, rs1: RenderSettings, rs2: RenderSettings)
    ensures UpdateRenderSettings(settings, rs1) == UpdateRenderSettings(settings, rs2)
    ensures UpdateRenderSettings(settings, UpdateRenderSettings(settings, rs1))
            == UpdateRenderSettings(settings, rs1)
  {
  }

  /** A GUI with every feature off and the default sliders (depth 2, one
      sub-sample) reproduces `defaultRenderSettings`. */
  lemma DefaultsFromPlainGui(settings: Settings, rs: RenderSettings)
    requires AllOff(settings) && settings.maxDepth == 2 && settings.subsamples == 1
    ensures UpdateRenderSettings(settings, rs) == DefaultRenderSettings
  {
  }

  // ---------------------------------------------------------------------
  // Sub-pixel positions
  // ---------------------------------------------------------------------

  /** The centre of cell i when [0, 1] is cut into n equal cells. */
  function GridCentre(i: nat, n: nat): real
    requires n > 0
  {
    (i as real + 0.5) / n as real
  }

  lemma GridCentreInside(i: nat, n: nat)
    requires i < n
    ensures 0.0 < GridCentre(i, n) < 1.0
  {
    var c := GridCentre(i, n);
    assert c * n as real == i as real + 0.5;
    if c >= 1.0 {
      MulMono(n as real, 1.0, c);
      assert false;
    }
    if c <= 0.0 {
      MulMono(n as real, c, 0.0);
      assert false;
    }
  }

  /** `pointer.x` of sub-sample column x of pixel column w, with s sub-samples
      per axis on a canvas `width` pixels wide. */
  function NdcX(w: nat, x: nat, s: nat, width: nat): (r: real)
    requires s > 0 && width > 0
    ensures r == GridCentre(w * s + x, width * s) * 2.0 - 1.0
    ensures w < width && x < s ==> -1.0 < r < 1.0
  {
    NdcXGrid(w, x, s, width);
    CellInside(w, x, s, width);
    (((w as real + x as real / s as real) + 1.0 / (2.0 * s as real)) / width as real) * 2.0 - 1.0
  }

  /** `pointer.y`: the same grid as `NdcX`, flipped so that row 0 is at the
      top of the canvas. */
  function NdcY(h: nat, y: nat, s: nat, height: nat): (r: real)
    requires s > 0 && height > 0
    ensures r == -NdcX(h, y, s, height)
    ensures r == 1.0 - GridCentre(h * s + y, height * s) * 2.0
  {
    var sr := s as real;
    -(((h as real + y as real / sr) + 1.0 / (2.0 * sr)) / height as real) * 2.0 + 1.0
  }

  /** The pointer formula, rewritten over the integer sub-pixel index. */
  lemma NdcXGrid(w: nat, x: nat, s: nat, width: nat)
    requires s > 0 && width > 0
    ensures ((w as real + x as real / s as real) + 1.0 / (2.0 * s as real)) / width as real
            == GridCentre(w * s + x, width * s)
  {
    GridAlgebra(w as real, x as real, s as real, width as real);
    NdcAsGrid(w, x, s, width);
  }


  lemma GridAlgebra(w: real, x: real, sr: real, wr: real)
    requires sr > 0.0 && wr > 0.0
    ensures ((w + x / sr) + 1.0 / (2.0 * sr)) / wr == (w * sr + x + 0.5) / (sr * wr)
  {
    var q := x / sr;
    assert q * sr == x;
    var e := 1.0 / (2.0 * sr);
    assert e * (2.0 * sr) == 1.0;
    assert e * sr == 0.5;
    var a := w + q + e;
    assert a * sr == w * sr + q * sr + e * sr;
    assert a * sr == w * sr + x + 0.5;
    var lhs := a / wr;
    assert lhs * wr == a;
    assert lhs * (sr * wr) == (lhs * wr) * sr;
    DivUnique(lhs, a * sr, sr * wr);
  }

  lemma DivUnique(z: real, v: real, y: real)
    requires y > 0.0 && z * y == v
    ensures z == v / y
  {
    var q := v / y;
    assert q * y == v;
    assert (z - q) * y == 0.0;
  }

  lemma NdcAsGrid(w: nat, x: nat, s: nat, width: nat)
    requires s > 0 && width > 0
    ensures (w as real * s as real + x as real + 0.5) / (s as real * width as real)
            == GridCentre(w * s + x, width * s)
  {
    var num := (w * s + x) as real + 0.5;
    var den := (width * s) as real;
    assert num == w as real * s as real + x as real + 0.5;
    assert den == s as real * width as real;
    assert GridCentre(w * s + x, width * s) == num / den;
  }

  lemma CellInside(w: nat, x: nat, s: nat, width: nat)
    requires s > 0 && width > 0
    ensures w < width && x < s ==> 0.0 < GridCentre(w * s + x, width * s) < 1.0
  {
    if w < width && x < s {
      IndexInside(w, x, s, width);
      GridCentreInside(w * s + x, width * s);
    }
  }

  /** With one sample per pixel the ray goes through the pixel centre, in
      both coordinates. */
  lemma SingleSampleAtCentre(w: nat, width: nat, h: nat, height: nat)
    requires width > 0 && height > 0
    ensures NdcX(w, 0, 1, width) == ((w as real + 0.5) / width as real) * 2.0 - 1.0
    ensures NdcY(h, 0, 1, height) == 1.0 - ((h as real + 0.5) / height as real) * 2.0
  {
  }

  // ---------------------------------------------------------------------
  // One sub-sample
  // ---------------------------------------------------------------------

  /** The colour of one primary ray, with the counter it leaves behind: black
      when nothing is hit, otherwise the shaded nearest hit, reflected when
      mirrors are on. The first point light is read only after a hit, so a
      ray that misses needs no light even in one-light Phong mode. */
  function TracePrimary(o: Oracles, scene: Scene, cam: Camera, rs: RenderSettings, ray: Ray): (r: Traced)
    requires LightsReady(scene, rs) || |IntersectRay(o, ray, scene, rs)| == 1
    ensures |IntersectRay(o, ray, scene, rs)| == 1 ==> r == Traced(Black, rs.recursions, [])
    ensures Consecutive(r.bounces, rs.recursions) && r.recursions == rs.recursions + |r.bounces|
    ensures r.recursions <= Max(rs.recursions, rs.maxRecursions)
    ensures !rs.mirrors ==> r.bounces == []
    ensures var hits := IntersectRay(o, ray, scene, rs);
            |hits| > 1 && !rs.phong && !rs.mirrors ==> r.color == Nearest(hits).objectColor
    ensures var hits := IntersectRay(o, ray, scene, rs);
            |hits| > 1 ==>
              var sh := ShadeHit(o, scene, cam, rs, Nearest(hits), cam.position);
              r.color == (if rs.mirrors
                          then CheckAndGetReflection(o, scene, cam, rs, sh.hit, ray.direction, sh.color).color
                          else sh.color)
  {
    var hits := IntersectRay(o, ray, scene, rs);
    if |hits| == 1 then Traced(Black, rs.recursions, [])
    else
      var shaded := ShadeHit(o, scene, cam, rs, Nearest(hits), cam.position);
      if rs.mirrors then
        CheckAndGetReflection(o, scene, cam, rs, shaded.hit, ray.direction, shaded.color)
      else
        Traced(shaded.color, rs.recursions, [])
  }

  /** The ray of sub-sample (y, x) of pixel (w, h). */
  function SampleRay(cam: Camera, rs: RenderSettings, width: nat, height: nat, w: nat, h: nat,
                     y: nat, x: nat): Ray
    requires rs.subsamples > 0 && width > 0 && height > 0
  {
    cam.setFromCamera(NdcX(w, x, rs.subsamples, width), NdcY(h, y, rs.subsamples, height))
  }

  /** The ray of sub-sample (y, x) of pixel (w, h) hits nothing. Stated on
      the two settings it depends on, so that it does not change with the
      reflection counter. */
  predicate SampleMisses(o: Oracles, scene: Scene, cam: Camera, correctSphere: bool, s: nat, width: nat,
                         height: nat, w: nat, h: nat, y: nat, x: nat)
    requires s > 0 && width > 0 && height > 0
  {
    Candidates(o, cam.setFromCamera(NdcX(w, x, s, width), NdcY(h, y, s, height)), scene.children, correctSphere) == []
  }

  /** `SampleMisses` is the test `intersectRay` leaves for a sub-sample's ray
      that hits nothing: the placeholder alone. */
  lemma SampleMissesIffNoHit(o: Oracles, scene: Scene, cam: Camera, rs: RenderSettings, width: nat,
                             height: nat, w: nat, h: nat, y: nat, x: nat)
    requires rs.subsamples > 0 && width > 0 && height > 0
    ensures SampleMisses(o, scene, cam, rs.correctSphere, rs.subsamples, width, height, w, h, y, x)
            <==> |IntersectRay(o, SampleRay(cam, rs, width, height, w, h, y, x), scene, rs)| == 1
  {
  }

  /** Sub-sample (y, x) of pixel (w, h) can be traced: the first point light
      is read only after a hit, so either the scene has the light the
      shading mode reads or the sub-sample's ray hits nothing. */
  predicate SampleReady(o: Oracles, scene: Scene, cam: Camera, rs: RenderSettings, width: nat, height: nat,
                        w: nat, h: nat, y: nat, x: nat)
    requires rs.subsamples > 0 && width > 0 && height > 0
  {
    LightsReady(scene, rs)
    || SampleMisses(o, scene, cam, rs.correctSphere, rs.subsamples, width, height, w, h, y, x)
  }

  /** Every sub-sample of pixel (w, h) can be traced. */
  predicate PixelReady(o: Oracles, scene: Scene, cam: Camera, rs: RenderSettings, width: nat, height: nat,
                       w: nat, h: nat)
    requires rs.subsamples > 0 && width > 0 && height > 0
  {
    LightsReady(scene, rs)
    || forall y: nat, x: nat :: y < rs.subsamples && x < rs.subsamples ==>
         SampleMisses(o, scene, cam, rs.correctSphere, rs.subsamples, width, height, w, h, y, x)
  }

  /** Readiness does not depend on the reflection counter, so the loops of
      the pass may state it for the settings after the counter reset. */
  lemma PixelReadyIgnoresCounter(o: Oracles, scene: Scene, cam: Camera, rs: RenderSettings, width: nat,
                                 height: nat, w: nat, h: nat)
    requires rs.subsamples > 0 && width > 0 && height > 0
    ensures PixelReady(o, scene, cam, Fresh(rs), width, height, w, h)
            <==> PixelReady(o, scene, cam, rs, width, height, w, h)
  {
  }

  /** Every sub-sample of every pixel of column w can be traced. */
  predicate ColumnReady(o: Oracles, scene: Scene, cam: Camera, rs: RenderSettings, width: nat, height: nat,
                        w: nat)
    requires rs.subsamples > 0 && width > 0
  {
    LightsReady(scene, rs)
    || forall h: nat, y: nat, x: nat :: h < height && y < rs.subsamples && x < rs.subsamples ==>
         SampleMisses(o, scene, cam, rs.correctSphere, rs.subsamples, width, height, w, h, y, x)
  }

  /** Every sub-sample of the whole canvas can be traced. */
  predicate ImageReady(o: Oracles, scene: Scene, cam: Camera, rs: RenderSettings, width: nat, height: nat)
    requires rs.subsamples > 0
  {
    LightsReady(scene, rs)
    || forall w: nat, h: nat, y: nat, x: nat :: w < width && h < height && y < rs.subsamples && x < rs.subsamples ==>
         SampleMisses(o, scene, cam, rs.correctSphere, rs.subsamples, width, height, w, h, y, x)
  }

  /** A scene without children has no point light, yet renders in every
      shading mode: no ray hits anything, so no light is ever read. */
  lemma EmptySceneRenders(o: Oracles, cam: Camera, rs: RenderSettings, width: nat, height: nat)
    requires rs.subsamples > 0
    ensures |GetPointLights(Scene([]))| == 0
    ensures ImageReady(o, Scene([]), cam, rs, width, height)
  {
  }

  /** Sub-sample (y, x) of pixel (w, h), traced after the counter reset. The
      reflection chain of one sub-sample makes at most `maxRecursions`
      `reflect` calls. */
  function SampleAt(o: Oracles, scene: Scene, cam: Camera, rs: RenderSettings, width: nat, height: nat,
                    w: nat, h: nat, y: nat, x: nat): (r: Traced)
    requires rs.subsamples > 0 && width > 0 && height > 0
    requires SampleReady(o, scene, cam, rs, width, height, w, h, y, x)
    ensures r.recursions == |r.bounces| <= rs.maxRecursions
    ensures Consecutive(r.bounces, 0)
  {
    TracePrimary(o, scene, cam, rs.(recursions := 0), SampleRay(cam, rs, width, height, w, h, y, x))
  }

  /** The sub-sample colours of pixel (w, h) as a table over (row, column). */
  function SampleTable(o: Oracles, scene: Scene, cam: Camera, rs: RenderSettings, width: nat, height: nat,
                       w: nat, h: nat): (nat, nat) --> Color
  {
    (y: nat, x: nat) requires rs.subsamples > 0 && width > 0 && height > 0 && y < rs.subsamples
                              && x < rs.subsamples && PixelReady(o, scene, cam, rs, width, height, w, h) =>
      SampleAt(o, scene, cam, rs, width, height, w, h, y, x).color
  }

  /** The colours the sub-pixel loops of pixel (w, h) collect: s rows of s
      sub-samples, sub-sample (y, x) at position `y * s + x`. */
  function PixelSamples(o: Oracles, scene: Scene, cam: Camera, rs: RenderSettings, width: nat,
                        height: nat, w: nat, h: nat): (colors: seq<Color>)
    requires rs.subsamples > 0 && width > 0 && height > 0
    requires PixelReady(o, scene, cam, rs, width, height, w, h)
    ensures |colors| == Times(rs.subsamples, rs.subsamples) >= rs.subsamples > 0
  {
    var s := rs.subsamples;
    assert Times(s, s) == Times(s - 1, s) + s;
    Rows(SampleTable(o, scene, cam, rs, width, height, w, h), s, s)
  }

  /** Sub-sample (y, x) is found at position `i = y * s + x` of the
      collected colours. */
  lemma PixelSampleOrder(o: Oracles, scene: Scene, cam: Camera, rs: RenderSettings, width: nat,
                         height: nat, w: nat, h: nat, y: nat, x: nat, i: nat)
    requires rs.subsamples > 0 && width > 0 && height > 0
    requires PixelReady(o, scene, cam, rs, width, height, w, h)
    requires y < rs.subsamples && x < rs.subsamples && i == y * rs.subsamples + x
    ensures i < |PixelSamples(o, scene, cam, rs, width, height, w, h)|
    ensures PixelSamples(o, scene, cam, rs, width, height, w, h)[i]
            == SampleAt(o, scene, cam, rs, width, height, w, h, y, x).color
  {
    var table := SampleTable(o, scene, cam, rs, width, height, w, h);
    RowsOrder(table, rs.subsamples, rs.subsamples, y, x);
    assert PixelSamples(o, scene, cam, rs, width, height, w, h) == Rows(table, rs.subsamples, rs.subsamples);
  }

  /** The settings right after the per-sub-sample counter reset. */
  function Fresh(rs: RenderSettings): RenderSettings {
    rs.(recursions := 0)
  }

  /** The samples do not depend on the counter left by earlier pixels: every
      sub-sample resets it. */
  lemma PixelSamplesIgnoreCounter(o: Oracles, scene: Scene, cam: Camera, rs: RenderSettings,
                                  width: nat, height: nat, w: nat, h: nat)
    requires rs.subsamples > 0 && width > 0 && height > 0
    requires PixelReady(o, scene, cam, rs, width, height, w, h)
    ensures PixelSamples(o, scene, cam, Fresh(rs), width, height, w, h)
            == PixelSamples(o, scene, cam, rs, width, height, w, h)
  {
    assert Fresh(Fresh(rs)) == Fresh(rs);
    RowsAgree(SampleTable(o, scene, cam, Fresh(rs), width, height, w, h),
              SampleTable(o, scene, cam, rs, width, height, w, h), rs.subsamples, rs.subsamples);
  }

  // ---------------------------------------------------------------------
  // The pass
  // ---------------------------------------------------------------------

  /** One canvas pixel: its colour and opacity. */
  datatype Pixel = Pixel(color: Color, opacity: real)

  /** What `setPixel` receives for pixel (w, h): the average of its
      sub-sample colours, fully opaque. */
  function PixelAt(o: Oracles, scene: Scene, cam: Camera, rs: RenderSettings, width: nat, height: nat,
                   w: nat, h: nat): Pixel
    requires rs.subsamples > 0 && width > 0 && height > 0
    requires PixelReady(o, scene, cam, rs, width, height, w, h)
  {
    Pixel(AvgColors(PixelSamples(o, scene, cam, rs, width, height, w, h)), 1.0)
  }

  /** The inner sub-pixel loop of `RTRenderPass`: sub-sample row y of pixel
      (w, h), left to right. The shared counter is reset before every
      sub-sample and left where the last one put it, never above
      `maxRecursions`; no other setting changes. */
  method SampleRow(o: Oracles, scene: Scene, cam: Camera, rs: RenderSettings, width: nat,
                   height: nat, w: nat, h: nat, y: nat)
    returns (row: seq<Color>, after: RenderSettings)
    requires rs.subsamples > 0 && width > 0 && height > 0
    requires PixelReady(o, scene, cam, Fresh(rs), width, height, w, h) && y < rs.subsamples
    ensures row == Row(SampleTable(o, scene, cam, Fresh(rs), width, height, w, h), y, rs.subsamples)
    ensures Fresh(after) == Fresh(rs)
    ensures after.recursions <= rs.maxRecursions
  {
    var table := SampleTable(o, scene, cam, Fresh(rs), width, height, w, h);
    row := [];
    after := rs;
    var x := 0;
    while x < rs.subsamples
      invariant 0 <= x <= rs.subsamples
      invariant row == Row(table, y, x)
      invariant Fresh(after) == Fresh(rs)
      invariant x > 0 ==> after.recursions <= rs.maxRecursions
    {
      after := after.(recursions := 0);
      assert after == Fresh(rs);
      var traced := SampleAt(o, scene, cam, after, width, height, w, h, y, x);
      assert traced.color == table(y, x);
      row := row + [traced.color];
      after := after.(recursions := traced.recursions);
      x := x + 1;
    }
    assert x == rs.subsamples && x > 0;
  }

  /** The two sub-pixel loops of `RTRenderPass` for pixel (w, h): the rows
      of sub-samples, top to bottom. */
  method SampleColors(o: Oracles, scene: Scene, cam: Camera, rs: RenderSettings, width: nat,
                      height: nat, w: nat, h: nat)
    returns (colors: seq<Color>, after: RenderSettings)
    requires rs.subsamples > 0 && width > 0 && height > 0
    requires PixelReady(o, scene, cam, Fresh(rs), width, height, w, h)
    ensures colors == PixelSamples(o, scene, cam, Fresh(rs), width, height, w, h)
    ensures Fresh(after) == Fresh(rs)
    ensures after.recursions <= rs.maxRecursions
  {
    var s := rs.subsamples;
    var table := SampleTable(o, scene, cam, Fresh(rs), width, height, w, h);
    colors := [];
    after := rs;
    var y := 0;
    while y < s
      invariant 0 <= y <= s
      invariant colors == Rows(table, s, y)
      invariant Fresh(after) == Fresh(rs)
      invariant y > 0 ==> after.recursions <= rs.maxRecursions
    {
      assert after.subsamples == Fresh(after).subsamples == s;
      var row;
      row, after := SampleRow(o, scene, cam, after, width, height, w, h, y);
      RowsSnoc(table, s, y);
      colors := colors + row;
      y := y + 1;
    }
    assert y == s && y > 0;
  }

  /** One column of the canvas: the pixels (w, 0), (w, 1), ... */
  method RenderColumn(o: Oracles, scene: Scene, cam: Camera, rs: RenderSettings, width: nat,
                      height: nat, w: nat)
    returns (column: seq<Pixel>, after: RenderSettings)
    requires rs.subsamples > 0 && width > 0
    requires ColumnReady(o, scene, cam, Fresh(rs), width, height, w)
    ensures |column| == height
    ensures forall h :: 0 <= h < height ==> column[h] == PixelAt(o, scene, cam, Fresh(rs), width, height, w, h)
    ensures Fresh(after) == Fresh(rs)
  {
    column := [];
    after := rs;
    var h := 0;
    while h < height
      invariant 0 <= h <= height
      invariant |column| == h
      invariant forall j :: 0 <= j < h ==> column[j] == PixelAt(o, scene, cam, Fresh(rs), width, height, w, j)
      invariant Fresh(after) == Fresh(rs)
    {
      var colors;
      colors, after := SampleColors(o, scene, cam, after, width, height, w, h);
      column := column + [Pixel(AvgColors(colors), 1.0)];
      h := h + 1;
    }
  }

  /** `RTRenderPass`: every pixel of the canvas, column by column, gets the
      average of its sub-sample colours with opacity 1. It needs at least one
      sub-sample per axis (the source would average an empty list); the
      settings other than the counter are left as they were. */
  method RenderPass(o: Oracles, scene: Scene, cam: Camera, rs: RenderSettings, width: nat, height: nat)
    returns (image: seq<seq<Pixel>>, after: RenderSettings)
    requires rs.subsamples > 0
    requires ImageReady(o, scene, cam, Fresh(rs), width, height)
    ensures |image| == width
    ensures forall w :: 0 <= w < width ==> |image[w]| == height
    ensures forall w, h :: 0 <= w < width && 0 <= h < height ==>
              image[w][h] == PixelAt(o, scene, cam, Fresh(rs), width, height, w, h)
    ensures Fresh(after) == Fresh(rs)
  {
    image := [];
    after := rs;
    var w := 0;
    while w < width
      invariant 0 <= w <= width
      invariant |image| == w
      invariant forall i :: 0 <= i < w ==> |image[i]| == height
      invariant forall i, j :: 0 <= i < w && 0 <= j < height ==>
                  image[i][j] == PixelAt(o, scene, cam, Fresh(rs), width, height, i, j)
      invariant Fresh(after) == Fresh(rs)
    {
      var column;
      column, after := RenderColumn(o, scene, cam, after, width, height, w);
      image := image + [column];
      w := w + 1;
    }
  }

  /** A pixel none of whose sub-sample rays hits anything is black. */
  lemma MissedPixelIsBlack(o: Oracles, scene: Scene, cam: Camera, rs: RenderSettings, width: nat,
                           height: nat, w: nat, h: nat)
    requires rs.subsamples > 0 && width > 0 && height > 0
    requires forall y: nat, x: nat :: y < rs.subsamples && x < rs.subsamples ==>
               SampleMisses(o, scene, cam, rs.correctSphere, rs.subsamples, width, height, w, h, y, x)
    ensures PixelAt(o, scene, cam, rs, width, height, w, h).color == Black
  {
    var s := rs.subsamples;
    var table := SampleTable(o, scene, cam, rs, width, height, w, h);
    forall y: nat, x: nat | y < s && x < s
      ensures table.requires(y, x) && table(y, x) == Black
    {
      var rs0 := rs.(recursions := 0);
      SampleMissesIffNoHit(o, scene, cam, rs0, width, height, w, h, y, x);
      assert SampleRay(cam, rs0, width, height, w, h, y, x) == SampleRay(cam, rs, width, height, w, h, y, x);
    }
    RowsConstant(table, s, s, Black);
    AvgOfCopies(PixelSamples(o, scene, cam, rs, width, height, w, h), Black);
  }
}
