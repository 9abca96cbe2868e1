/**
 * `AxmolRenderer`: the renderer the animation runtime draws through.
 *
 * The renderer's observable effect is the list of coloured triangles it has
 * handed to the engine's draw node, kept here as `drawn`. The current world
 * transform (owned by the runtime's renderer base class) and the triangle
 * strip produced by the runtime's stroke extruder are arguments of `DrawPath`.
 */
module Rendering {
  import opened RiveTypes
  import opened Colors
  import opened Gradients
  import opened RenderPath
  import opened RenderPaint
  import opened Triangles

  type Triangle = Tri<Vec2, Color32>

  /** `AxmolState`: one saved frame, remembering the clip depth at `save`. */
  datatype StateFrame = StateFrame(clipDepth: int)

  function NewStateFrame(): (f: StateFrame)
    ensures f.clipDepth == 0
  {
    StateFrame(0)
  }

  datatype Renderer = Renderer(clipDepth: int, states: seq<StateFrame>, drawn: seq<Triangle>)

  /** A renderer as constructed: no clip, no saved frame, nothing drawn. */
  function NewRenderer(): (r: Renderer)
    ensures r.clipDepth == 0 && r.states == [] && r.drawn == []
  {
    Renderer(0, [], [])
  }

  function Centroid(a: Vec2, b: Vec2, c: Vec2): Vec2 {
    Vec2((a.x + b.x + c.x) / 3.0, (a.y + b.y + c.y) / 3.0)
  }

  /**
   * How a paint colours a triangle: the converted paint colour when it has no
   * shader, otherwise the shader sampled once at the triangle's centroid.
   */
  function PaintShade(h: Helpers, paint: Paint): (shade: (Vec2, Vec2, Vec2) -> Color32)
    ensures paint.shader.None? ==> forall a, b, c :: shade(a, b, c) == ToAxColor(h, paint.color)
    ensures paint.shader.Some? ==> forall a, b, c :: shade(a, b, c) == Sample(h, paint.shader.value, Centroid(a, b, c))
  {
    match paint.shader
    case None =>
      var c := ToAxColor(h, paint.color);
      (a: Vec2, b: Vec2, d: Vec2) => c
    case Some(g) =>
      (a: Vec2, b: Vec2, d: Vec2) => Sample(h, g, Centroid(a, b, d))
  }

  /** What `drawPath` requires of its arguments: a filled path's cached indices are in range. */
  predicate Drawable(path: Store<Vec2>, paint: Paint) {
    paint.style == Fill ==> Indexed(path.vertices, path.indices)
  }

  /** The triangles one `drawPath` call hands to the draw node. */
  function Emitted(h: Helpers, xf: Vec2 -> Vec2, path: Store<Vec2>, paint: Paint, strip: seq<Vec2>): seq<Triangle>
    requires Drawable(path, paint)
  {
    if paint.style == Stroke then StrokeSpec(strip, PaintShade(h, paint))
    else FillSpec(path.vertices, path.indices, xf, PaintShade(h, paint))
  }

  /**
   * `drawPath`: a stroke draws the strip the extruder produced (already in
   * world space); a fill draws the cached local triangles mapped through `xf`.
   */
  function DrawPath(r: Renderer, h: Helpers, xf: Vec2 -> Vec2, path: Store<Vec2>, paint: Paint, strip: seq<Vec2>)
    : (r': Renderer)
    requires Drawable(path, paint)
    ensures r'.clipDepth == r.clipDepth && r'.states == r.states
    ensures r.drawn <= r'.drawn
    ensures paint.style == Stroke ==> |r'.drawn| == |r.drawn| + (if |strip| >= 3 then |strip| - 2 else 0)
    ensures paint.style == Fill && (|path.vertices| == 0 || |path.indices| == 0) ==> r' == r
    ensures paint.style == Fill && |path.vertices| > 0 && |path.indices| > 0 ==>
              |r'.drawn| == |r.drawn| + |path.indices| / 3
    ensures paint.style == Stroke ==>
              forall i :: 0 <= i < |strip| - 2 ==>
                r'.drawn[|r.drawn| + i] == Shaded(strip[i], strip[i + 1], strip[i + 2], PaintShade(h, paint))
    ensures paint.style == Fill && |path.vertices| > 0 ==>
              forall t :: 0 <= t < Triples(|path.indices|) ==>
                r'.drawn[|r.drawn| + t] == FillTri(path.vertices, path.indices, t, xf, PaintShade(h, paint))
  {
    var e := Emitted(h, xf, path, paint, strip);
    assert paint.style == Stroke ==> e == StrokeSpec(strip, PaintShade(h, paint));
    assert paint.style == Fill ==> e == FillSpec(path.vertices, path.indices, xf, PaintShade(h, paint));
    r.(drawn := r.drawn + e)
  }

  /** `clipPath`: clipping is not applied; the call has no effect. */
  function ClipPath(r: Renderer, path: Store<Vec2>): (r': Renderer)
    ensures r' == r
  {
    r
  }

  /** `orthographicProjection`: an empty stub. */
  function OrthographicProjection(r: Renderer, left: real, right: real, bottom: real, top: real, near: real, far: real)
    : (r': Renderer)
    ensures r' == r
  {
    r
  }

  /** `drawImage`: an empty stub. */
  function DrawImage(r: Renderer, blend: BlendMode, opacity: real): (r': Renderer)
    ensures r' == r
  {
    r
  }

  /** `drawImageMesh`: an empty stub. */
  function DrawImageMesh(r: Renderer, vertexCount: nat, indexCount: nat, blend: BlendMode, opacity: real)
    : (r': Renderer)
    ensures r' == r
  {
    r
  }

  // ---------------------------------------------------------------------------
  // Colours of the emitted triangles
  // ---------------------------------------------------------------------------

  /** Without a shader every triangle of one call carries the converted paint colour. */
  lemma FlatColorWithoutShader(h: Helpers, xf: Vec2 -> Vec2, path: Store<Vec2>, paint: Paint, strip: seq<Vec2>)
    requires Drawable(path, paint) && paint.shader.None?
    ensures forall t :: 0 <= t < |Emitted(h, xf, path, paint, strip)| ==>
              Emitted(h, xf, path, paint, strip)[t].color == ToAxColor(h, paint.color)
  {
  }

  /** With a shader each triangle carries the shader's colour at its own centroid. */
  lemma CentroidColorWithShader(h: Helpers, xf: Vec2 -> Vec2, path: Store<Vec2>, paint: Paint, strip: seq<Vec2>)
    requires Drawable(path, paint) && paint.shader.Some?
    ensures forall t :: 0 <= t < |Emitted(h, xf, path, paint, strip)| ==>
              var tri := Emitted(h, xf, path, paint, strip)[t];
              tri.color == Sample(h, paint.shader.value, Centroid(tri.a, tri.b, tri.c))
  {
  }

  // ---------------------------------------------------------------------------
  // A sequence of renderer calls
  // ---------------------------------------------------------------------------

  /** One call on the renderer. */
  datatype Call =
    | Draw(xf: Vec2 -> Vec2, path: Store<Vec2>, paint: Paint, strip: seq<Vec2>)
    | Clip(clipped: Store<Vec2>)
    | Ortho(left: real, right: real, bottom: real, top: real, near: real, far: real)
    | Image(blend: BlendMode, opacity: real)
    | ImageMesh(vertexCount: nat, indexCount: nat, meshBlend: BlendMode, meshOpacity: real)

  predicate WellFormed(c: Call) {
    c.Draw? ==> Drawable(c.path, c.paint)
  }

  function Step(r: Renderer, h: Helpers, c: Call): Renderer
    requires WellFormed(c)
  {
    match c
    case Draw(xf, path, paint, strip) => DrawPath(r, h, xf, path, paint, strip)
    case Clip(path) => ClipPath(r, path)
    case Ortho(l, rt, b, t, n, f) => OrthographicProjection(r, l, rt, b, t, n, f)
    case Image(blend, opacity) => DrawImage(r, blend, opacity)
    case ImageMesh(vc, ic, blend, opacity) => DrawImageMesh(r, vc, ic, blend, opacity)
  }

  function Run(r: Renderer, h: Helpers, calls: seq<Call>): Renderer
    requires forall i :: 0 <= i < |calls| ==> WellFormed(calls[i])
    decreases |calls|
  {
    if |calls| == 0 then r else Run(Step(r, h, calls[0]), h, calls[1..])
  }

  /** The `drawPath` calls of a call sequence, in order. */
  function Draws(calls: seq<Call>): (ds: seq<Call>)
    ensures forall i :: 0 <= i < |ds| ==> ds[i].Draw?
    ensures forall i :: 0 <= i < |ds| ==> exists j :: 0 <= j < |calls| && calls[j] == ds[i]
  {
    if |calls| == 0 then []
    else if calls[0].Draw? then [calls[0]] + Draws(calls[1..])
    else Draws(calls[1..])
  }

  /**
   * Clipping and the stubs are invisible: any sequence of the modelled calls
   * (drawPath, clipPath and the stubs) leaves the renderer exactly as its
   * `drawPath` calls alone would.
   */
  lemma {:induction false} OnlyDrawsMatter(r: Renderer, h: Helpers, calls: seq<Call>)
    requires forall i :: 0 <= i < |calls| ==> WellFormed(calls[i])
    ensures forall i :: 0 <= i < |Draws(calls)| ==> WellFormed(Draws(calls)[i])
    ensures Run(r, h, calls) == Run(r, h, Draws(calls))
    decreases |calls|
  {
    if |calls| > 0 {
      OnlyDrawsMatter(Step(r, h, calls[0]), h, calls[1..]);
      if calls[0].Draw? {
        assert Draws(calls)[1..] == Draws(calls[1..]);
      }
    }
  }

  /** No modelled call changes the clip depth or the saved frames. */
  lemma {:induction false} RunKeepsClipState(r: Renderer, h: Helpers, calls: seq<Call>)
    requires forall i :: 0 <= i < |calls| ==> WellFormed(calls[i])
    ensures Run(r, h, calls).clipDepth == r.clipDepth && Run(r, h, calls).states == r.states
    ensures r.drawn <= Run(r, h, calls).drawn
    decreases |calls|
  {
    if |calls| > 0 {
      RunKeepsClipState(Step(r, h, calls[0]), h, calls[1..]);
    }
  }

  // ---------------------------------------------------------------------------
  // Filling a path built batch by batch
  // ---------------------------------------------------------------------------

  /**
   * Every cached index names a cached vertex. This is `Triangles.Indexed`
   * extended to a trailing incomplete triple and to an index list with no
   * vertex; `FillOfIndexed` shows it implies `Indexed`. The stronger form is
   * the one `addTriangles` keeps from batch to batch.
   */
  predicate AllIndexed(s: Store<Vec2>) {
    forall k :: 0 <= k < |s.indices| ==> s.indices[k] < |s.vertices|
  }

  /** After a batch is added without wrap-around, every stored index still names a stored vertex. */
  lemma AddKeepsIndexed(s: Store<Vec2>, vs: seq<Vec2>, ix: seq<U16>)
    requires AllIndexed(s) && AllIndexed(Store(vs, ix))
    requires |s.vertices| + |vs| <= 0x1_0000
    ensures AllIndexed(AddTriangles(s, vs, ix))
    ensures forall k :: 0 <= k < |ix| ==> AddTriangles(s, vs, ix).indices[|s.indices| + k] == |s.vertices| + ix[k]
  {
    var full := AddTriangles(s, vs, ix);
    var n0 := |s.indices|;
    forall k | 0 <= k < |full.indices|
      ensures full.indices[k] < |full.vertices|
    {
      if k >= n0 {
        assert full.indices[n0 + (k - n0)] == Wrap16(|s.vertices| + ix[k - n0]);
      }
    }
  }

  lemma TriplesAdd(a: nat, b: nat)
    requires a % 3 == 0
    ensures Triples(a + b) == Triples(a) + Triples(b)
  {
  }

  /** When every index is in range, a fill draws one triangle per complete triple. */
  lemma FillOfIndexed(xf: Vec2 -> Vec2, shade: (Vec2, Vec2, Vec2) -> Color32, s: Store<Vec2>)
    requires AllIndexed(s)
    ensures Indexed(s.vertices, s.indices)
    ensures |FillSpec(s.vertices, s.indices, xf, shade)| == Triples(|s.indices|)
    ensures forall t :: 0 <= t < Triples(|s.indices|) ==>
              |s.vertices| > 0 && FillSpec(s.vertices, s.indices, xf, shade)[t] == FillTri(s.vertices, s.indices, t, xf, shade)
  {
    if |s.indices| > 0 {
      assert s.indices[0] < |s.vertices|;
    }
  }

  /** A triangle of the path before the batch is drawn unchanged from the grown path. */
  lemma OldTriangleKept(xf: Vec2 -> Vec2, shade: (Vec2, Vec2, Vec2) -> Color32,
                        s: Store<Vec2>, full: Store<Vec2>, t: nat)
    requires AllIndexed(s) && AllIndexed(full) && |s.vertices| > 0
    requires s.vertices <= full.vertices && s.indices <= full.indices
    requires t < Triples(|s.indices|)
    ensures t < Triples(|full.indices|)
    ensures FillTri(full.vertices, full.indices, t, xf, shade) == FillTri(s.vertices, s.indices, t, xf, shade)
  {
    TripleInBounds(|s.indices|, t);
    forall j | 0 <= j < 3
      ensures Corner(full.vertices, full.indices, t, j) == Corner(s.vertices, s.indices, t, j)
    {
      assert full.indices[3 * t + j] == s.indices[3 * t + j];
    }
  }

  /** Triangle `u` of the batch is drawn from the grown path as triangle `n0 / 3 + u`. */
  lemma BatchTriangleKept(xf: Vec2 -> Vec2, shade: (Vec2, Vec2, Vec2) -> Color32,
                          full: Store<Vec2>, n0: nat, b: nat, vs: seq<Vec2>, ix: seq<U16>, u: nat)
    requires AllIndexed(full) && AllIndexed(Store(vs, ix)) && |vs| > 0
    requires n0 % 3 == 0 && |full.indices| == n0 + |ix|
    requires |full.vertices| == b + |vs| && full.vertices[b..] == vs
    requires forall k :: 0 <= k < |ix| ==> full.indices[n0 + k] == b + ix[k]
    requires u < Triples(|ix|)
    ensures n0 / 3 + u < Triples(|full.indices|)
    ensures FillTri(full.vertices, full.indices, n0 / 3 + u, xf, shade) == FillTri(vs, ix, u, xf, shade)
  {
    var t := n0 / 3 + u;
    assert 3 * t == n0 + 3 * u;
    TripleInBounds(|ix|, u);
    forall j | 0 <= j < 3
      ensures Corner(full.vertices, full.indices, t, j) == Corner(vs, ix, u, j)
    {
      assert full.indices[n0 + (3 * u + j)] == b + ix[3 * u + j];
      assert full.vertices[b..][ix[3 * u + j]] == vs[ix[3 * u + j]];
    }
  }

  /** The fill of the grown path begins with the fill of the path before the batch. */
  lemma FillPrefixKept(xf: Vec2 -> Vec2, shade: (Vec2, Vec2, Vec2) -> Color32,
                       s: Store<Vec2>, full: Store<Vec2>)
    requires AllIndexed(s) && AllIndexed(full)
    requires s.vertices <= full.vertices && s.indices <= full.indices
    ensures Indexed(s.vertices, s.indices) && Indexed(full.vertices, full.indices)
    ensures FillSpec(s.vertices, s.indices, xf, shade) <= FillSpec(full.vertices, full.indices, xf, shade)
  {
    FillOfIndexed(xf, shade, full);
    FillOfIndexed(xf, shade, s);
    var lhs := FillSpec(full.vertices, full.indices, xf, shade);
    var before := FillSpec(s.vertices, s.indices, xf, shade);
    assert Triples(|s.indices|) <= Triples(|full.indices|);
    forall t | 0 <= t < |before|
      ensures lhs[t] == before[t]
    {
      OldTriangleKept(xf, shade, s, full, t);
    }
  }

  /** After the first `n0 / 3` triangles, the fill of the grown path is the batch's own fill. */
  lemma FillSuffixIsBatch(xf: Vec2 -> Vec2, shade: (Vec2, Vec2, Vec2) -> Color32,
                          full: Store<Vec2>, n0: nat, b: nat, vs: seq<Vec2>, ix: seq<U16>)
    requires AllIndexed(full) && AllIndexed(Store(vs, ix))
    requires n0 % 3 == 0 && |full.indices| == n0 + |ix|
    requires |full.vertices| == b + |vs| && full.vertices[b..] == vs
    requires forall k :: 0 <= k < |ix| ==> full.indices[n0 + k] == b + ix[k]
    ensures Indexed(full.vertices, full.indices) && Indexed(vs, ix)
    ensures |FillSpec(full.vertices, full.indices, xf, shade)| >= n0 / 3
    ensures FillSpec(full.vertices, full.indices, xf, shade)[n0 / 3..] == FillSpec(vs, ix, xf, shade)
  {
    FillOfIndexed(xf, shade, full);
    FillOfIndexed(xf, shade, Store(vs, ix));
    TriplesAdd(n0, |ix|);
    var lhs := FillSpec(full.vertices, full.indices, xf, shade)[n0 / 3..];
    var batch := FillSpec(vs, ix, xf, shade);
    forall u | 0 <= u < |batch|
      ensures lhs[u] == batch[u]
    {
      BatchTriangleKept(xf, shade, full, n0, b, vs, ix, u);
    }
  }

  /** `FillAfterAdd`, for any store laid out as the grown one. */
  lemma FillOfGrown(xf: Vec2 -> Vec2, shade: (Vec2, Vec2, Vec2) -> Color32,
                    s: Store<Vec2>, vs: seq<Vec2>, ix: seq<U16>, full: Store<Vec2>)
    requires AllIndexed(s) && AllIndexed(Store(vs, ix)) && AllIndexed(full)
    requires |s.indices| % 3 == 0 && |full.indices| == |s.indices| + |ix|
    requires s.vertices <= full.vertices && s.indices <= full.indices
    requires |full.vertices| == |s.vertices| + |vs| && full.vertices[|s.vertices|..] == vs
    requires forall k :: 0 <= k < |ix| ==> full.indices[|s.indices| + k] == |s.vertices| + ix[k]
    ensures Indexed(full.vertices, full.indices)
    ensures FillSpec(full.vertices, full.indices, xf, shade)
            == FillSpec(s.vertices, s.indices, xf, shade) + FillSpec(vs, ix, xf, shade)
  {
    FillPrefixKept(xf, shade, s, full);
    FillSuffixIsBatch(xf, shade, full, |s.indices|, |s.vertices|, vs, ix);
    FillOfIndexed(xf, shade, s);
    var lhs := FillSpec(full.vertices, full.indices, xf, shade);
    var m0 := Triples(|s.indices|);
    assert lhs[..m0] == FillSpec(s.vertices, s.indices, xf, shade);
    assert lhs[m0..] == FillSpec(vs, ix, xf, shade);
    assert lhs == lhs[..m0] + lhs[m0..];
  }

  /**
   * Filling a path whose index count is a multiple of 3, after one more batch
   * was added, draws what the path drew before, followed by the batch drawn on
   * its own, as long as the stored indices did not wrap around.
   */
  lemma FillAfterAdd(xf: Vec2 -> Vec2, shade: (Vec2, Vec2, Vec2) -> Color32,
                     s: Store<Vec2>, vs: seq<Vec2>, ix: seq<U16>)
    requires AllIndexed(s) && |s.indices| % 3 == 0
    requires AllIndexed(Store(vs, ix))
    requires |s.vertices| + |vs| <= 0x1_0000
    ensures Indexed(AddTriangles(s, vs, ix).vertices, AddTriangles(s, vs, ix).indices)
    ensures FillSpec(AddTriangles(s, vs, ix).vertices, AddTriangles(s, vs, ix).indices, xf, shade)
            == FillSpec(s.vertices, s.indices, xf, shade) + FillSpec(vs, ix, xf, shade)
  {
    AddKeepsIndexed(s, vs, ix);
    var full := AddTriangles(s, vs, ix);
    assert full.vertices[|s.vertices|..] == vs;
    FillOfGrown(xf, shade, s, vs, ix, full);
  }
}
