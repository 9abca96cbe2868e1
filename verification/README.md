# Axmol–Rive tessellation adapter, in Dafny

This project models the adapter that lets the Rive vector-animation runtime
draw through the Axmol game engine's draw node (`Source/AxmolRive.cpp` and
`Source/AxmolRive.h`). It covers four parts:

- **The per-path triangle cache** of `AxmolRenderPath` (`rive_types.dfy`, `render_path.dfy`).
  The triangulator calls `addTriangles` with batches of vertices and batch-local
  indices. The path appends the vertices and appends each index shifted by the
  number of vertices it held before, truncated to 16 bits. `rewind` empties the
  cache. `prune` is only declared, so the model states its documented contract
  and leaves out an implementation.
- **Triangle emission in `AxmolRenderer::drawPath`** (`triangles.dfy`, `rendering.dfy`).
  A fill walks the cached indices in complete triples and maps each corner
  through the current transform. A stroke turns the extruder's triangle strip
  of length N into N−2 triangles. The point type is generic in `Triangles`.
  `Rendering` instantiates it with 2-D points and the engine's `Color32`.
  Each triangle is coloured with the paint colour, or, when the paint has a
  shader, with one shader sample at the triangle's centroid.
- **The gradient shaders** `AxmolLinearGradient` and `AxmolRadialGradient` (`gradients.dfy`).
  Their constructors copy `count` colours and stops. Their `getColor` bodies
  share one stop lookup: an empty guard, a degenerate-geometry guard, clamping
  `t` to [0, 1], front/back shortcuts, and then a scan for the first enclosing
  stop pair and the local interpolation fraction.
- **The paint record** `AxmolRenderPaint` (`render_paint.dfy`): its default
  fields and its setters.

Floats are idealised as reals. The current transform (`Mat2D`), the stroke
extruder, the triangulator, `colorLerp`, the colour channel extraction and
`Vec2D::distance` belong to the runtime and are not part of this model:
- The transform is the function-valued argument `xf` of `DrawPath`.
- The extruder's output is the point sequence `strip`, also an argument of `DrawPath`.
- The triangulator does not appear at all. The `Store` passed to `DrawPath`
  stands for the cache as `triangulate` left it, through calls of `addTriangles`.
- `colorLerp`, the channel extraction and `distance` are the function-valued
  fields of `RiveTypes.Helpers`.

The engine's draw node is modelled as the list `drawn` of triangles handed to it.

Four behaviours of the code shape the model:
- `clipPath` (`Source/AxmolRive.cpp:127-137`) has an empty body. Its comments
  say clipping is ignored, so a clip has no effect on what is drawn.
- The fill branch of `drawPath` (`Source/AxmolRive.cpp:196-235`) does not
  call `prune`. It draws the cache as the triangulator left it.
- Gradient triangles are coloured flat, from one shader sample at the
  triangle's centroid (`Source/AxmolRive.cpp:178-182` and `222-226`). They
  are not coloured per vertex.
- `addTriangles` does not check that the index count is a multiple of 3. The
  fill loop skips a trailing incomplete triple.

## Model

| member | source | states |
|---|---|---|
| RenderPath.Wrap16 | Source/AxmolRive.cpp:103 | the `unsigned short` cast keeps a value below 65536 as it is, and in general gives the 16-bit value that differs from its argument by a multiple of 65536 |
| RenderPath.NewPath | Source/AxmolRive.h:36-38 | a new path caches no vertices and no indices |
| RenderPath.Rewind | Source/AxmolRive.cpp:88-92 | after `rewind` both the vertex and the index store are empty |
| RenderPath.SetTriangulatedBounds | Source/AxmolRive.cpp:107-109 | setting the triangulated bounds leaves the cache unchanged |
| RenderPath.AddTriangles | Source/AxmolRive.cpp:94-105 | the existing vertex and index prefixes are kept; the batch's vertices follow verbatim; batch index k is stored as (old vertex count + index) mod 65536, so every stored index is below 65536 |
| RenderPath.AppendTriangles | Source/AxmolRive.cpp:94-105 | the two push loops as written build exactly the store `AddTriangles` describes |
| RenderPath.StoredIndexFaithful | Source/AxmolRive.cpp:103 | a stored index equals old vertex count + given index if and only if that sum is below 65536; past that it wraps to an earlier vertex |
| RenderPath.RewindThenAdd | Source/AxmolRive.cpp:88-105 | a batch added right after a rewind is stored exactly as given, indices unshifted |
| RenderPath.PruneContract | Source/AxmolRive.h:30-31 | this model's reading of the declared `prune(oldV, oldI)`: a zero count keeps the store; a count that reaches its list's size clears both lists; otherwise the vertices after `oldV` and the indices after `oldI` move to the front, each kept index reduced by `oldV` in 16-bit arithmetic |
| RenderPath.PruneIsDeterministic | Source/AxmolRive.h:30-31 | the documented prune contract determines the pruned store uniquely |
| RenderPath.PruneZeroIsNoOp | Source/AxmolRive.h:30-31 | pruning at (0, 0) keeps the store exactly as it is, and this agrees with the shift-and-rebase rule: removing no vertex and no index and rebasing by 0 admits exactly the store itself |
| RenderPath.RebaseUndoesShift | Source/AxmolRive.h:30-31 | subtracting the removed vertex count in 16-bit arithmetic undoes the shift `addTriangles` applied, even across wrap-around |
| RenderPath.PruneLeavesBatch | Source/AxmolRive.h:30-31 | for a path that held at least one vertex and one index before the batch, the batch appended after the old counts, moved to the front with rebased indices, meets the prune contract; an empty store does when the batch brought no vertex or no index |
| RenderPath.PruneKeepsLatestBatch | Source/AxmolRive.h:30-31 | for a path that held at least one vertex and one index before the batch, pruning at the counts taken before a batch leaves exactly the batch as an empty path would store it, or an empty store when the batch brought no vertex or no index, and nothing else |
| RenderPath.PruneScenario | Source/AxmolRive.h:30-31 | add [A,B]/[0,1,0], prune(0,0), add [C]/[0], prune(2,3): the store is exactly [C]/[0] |
| Triangles.FillSpec | Source/AxmolRive.cpp:206-234 | the triangles of a fill, declaratively: none for an empty store, otherwise one per complete index triple; `Triangles.EmitFill` is proved equal to it |
| Triangles.StrokeSpec | Source/AxmolRive.cpp:167-194 | the triangles of a stroke, declaratively: max(0, N−2) for a strip of length N, triangle i starting at strip[i] and ending at strip[i+2]; `Triangles.EmitStroke` is proved equal to it |
| Triangles.EmitFill | Source/AxmolRive.cpp:206-234 | the fill loop emits nothing for an empty store and otherwise (index count) div 3 triangles, triangle t having corners xf(v[idx[3t]]), xf(v[idx[3t+1]]), xf(v[idx[3t+2]]); a trailing incomplete triple is dropped; indices of complete triples must be below the vertex count |
| Triangles.EmitStroke | Source/AxmolRive.cpp:167-194 | the stroke loop emits max(0, N−2) triangles for a strip of length N, triangle i being (strip[i], strip[i+1], strip[i+2]) |
| Rendering.DrawPath | Source/AxmolRive.cpp:139-236 | for a fill, given that the indices of complete triples name cached vertices (the loop reads them unchecked): drawPath appends to what was drawn and leaves the clip depth and saved frames alone; a stroke appends N−2 strip triangles, a fill appends nothing for an empty store and otherwise one transformed triangle per complete triple; every triangle is coloured by `Rendering.PaintShade` of the paint, a rule `Rendering.FlatColorWithoutShader` and `Rendering.CentroidColorWithShader` restate in plain terms |
| Rendering.PaintShade | Source/AxmolRive.cpp:144-148 | the colour choice of drawPath: without a shader every triangle gets the converted paint colour; with one, the shader sampled at the triangle's centroid, as at lines 178-182 (stroke) and 222-226 (fill) |
| Rendering.FlatColorWithoutShader | Source/AxmolRive.cpp:144-148 | without a shader every triangle of one call has the converted paint colour |
| Rendering.CentroidColorWithShader | Source/AxmolRive.cpp:222-226 | with a shader each triangle's colour is the shader sampled at that triangle's vertex centroid (the stroke branch does the same at lines 178-182) |
| Rendering.FillOfIndexed | Source/AxmolRive.cpp:206-220 | when every cached index names a cached vertex, a fill draws one triangle per complete triple |
| Rendering.AddKeepsIndexed | Source/AxmolRive.cpp:94-105 | adding an in-range batch without wrap-around keeps every stored index naming a stored vertex |
| Rendering.FillAfterAdd | Source/AxmolRive.cpp:210-220 | for a path whose index count is a multiple of 3, filling it after one more batch draws the earlier triangles followed by the batch's own, when no index wrapped |
| Rendering.ClipPath | Source/AxmolRive.cpp:127-137 | clipPath leaves the renderer unchanged |
| Rendering.OrthographicProjection | Source/AxmolRive.h:117 | the projection stub leaves the renderer unchanged |
| Rendering.DrawImage | Source/AxmolRive.h:123 | the image stub leaves the renderer unchanged |
| Rendering.DrawImageMesh | Source/AxmolRive.h:124 | the image-mesh stub leaves the renderer unchanged |
| Rendering.OnlyDrawsMatter | Source/AxmolRive.h:116-124 | any sequence of the modelled calls (drawPath, clipPath, the stubs) leaves the renderer exactly as its drawPath calls alone would |
| Rendering.RunKeepsClipState | Source/AxmolRive.cpp:127-236 | no sequence of the modelled calls (drawPath, clipPath, the stubs) changes the clip depth or the saved frames, and what was drawn is only extended |
| Rendering.NewStateFrame | Source/AxmolRive.h:103-105 | a new state frame has clip depth 0 |
| Rendering.NewRenderer | Source/AxmolRive.h:131-133 | a new renderer has live clip depth 0, no saved frame and nothing drawn |
| Gradients.CopyStops | Source/AxmolRive.cpp:20-23 | the copy loop takes the first `count` colours and the first `count` stops, in order, so the two lists have equal length |
| Gradients.MakeLinear | Source/AxmolRive.cpp:15-24 | the linear constructor keeps start and end and exactly the first `count` colours and stops |
| Gradients.MakeRadial | Source/AxmolRive.cpp:52-59 | the radial constructor keeps centre and radius and exactly the first `count` colours and stops |
| Colors.ToAxColor | Source/AxmolRive.cpp:6-12 | the engine colour's four channels are the runtime colour's red, green, blue and alpha, in that order |
| Gradients.Clamp01 | Source/AxmolRive.cpp:33 | the clamped parameter lies in [0, 1], equals t inside it, and is 0 below and 1 above |
| Gradients.FirstBracket | Source/AxmolRive.cpp:41-47 | the scan returns the first index i with stops[i] ≤ t ≤ stops[i+1], or none when no pair encloses t |
| Gradients.LocalT | Source/AxmolRive.cpp:43-44 | for an enclosing pair the local fraction lies in [0, 1]; for a pair of positive width, interpolating the stops at it gives back t |
| Gradients.Lookup | Source/AxmolRive.cpp:38-48 | t at or below the first stop gives the first colour; otherwise t at or past the last stop gives the last colour; an interior t gives the lerp of its first enclosing pair at the local fraction; with no enclosing pair, the last colour |
| Gradients.Sample | Source/AxmolRive.cpp:26-81 | an empty gradient samples as white; a degenerate one (axis length² ≤ 0.0001, or radius ≤ 0.0001) as its first colour |
| Gradients.AscendingScanFinds | Source/AxmolRive.cpp:41-47 | with ascending stops, a scan started at a stop at or below t, with t at or below the last stop, finds a pair |
| Gradients.InteriorIsInterpolated | Source/AxmolRive.cpp:38-47 | with ascending stops, every t strictly between the first and last stop is coloured by its first enclosing pair at a fraction in [0, 1] |
| Gradients.SingleStopIsConstant | Source/AxmolRive.cpp:38-39 | a one-stop gradient samples as that stop's colour everywhere |
| Gradients.ClampedEnds | Source/AxmolRive.cpp:33-39 | with stops in [0, 1], parameters ≤ 0 give the first colour; parameters ≥ 1 give the last colour when the first stop is below 1, and the first colour when it is at 1 |
| Gradients.TiedEndStopsGiveFirst | Source/AxmolRive.cpp:38-39 | for the ascending stops [c1 at 1, c2 at 1], the lookup at t = 1 gives c1, because the front test runs before the back one |
| Gradients.LinearT | Source/AxmolRive.cpp:30-32 | for an axis whose squared length exceeds 0.0001, the linear parameter is 0 at the start point and 1 at the end point |
| Gradients.LinearTOnAxis | Source/AxmolRive.cpp:30-32 | the dot-product ratio of the point start + k·(end − start) is k |
| Gradients.RadialT | Source/AxmolRive.cpp:66-67 | for a radius above 0.0001, the radial parameter is the distance from the centre measured in radii: it is at least 1 exactly on or outside the circle, and at most 0 exactly at distance 0 or below |
| Gradients.LinearBeyondEnds | Source/AxmolRive.cpp:26-39 | for a non-degenerate linear gradient with at least one stop, all stops in [0, 1]: on the axis, points before the start sample as the first colour; points past the end sample as the last colour, or as the first when the first stop is at 1 |
| Gradients.RadialEnds | Source/AxmolRive.cpp:61-71 | for a non-degenerate radial gradient with at least one stop, all stops in [0, 1]: points at distance 0 or below sample as the first colour; points at distance ≥ radius sample as the last, or as the first when the first stop is at 1 |
| RenderPaint.NewPaint | Source/AxmolRive.h:90-96 | a new paint is fill, colour 0xFFFFFFFF, thickness 1, miter join, butt cap, srcOver, no shader |
| RenderPaint.InvalidateStroke | Source/AxmolRive.cpp:122 | invalidateStroke leaves the paint unchanged |
| RenderPaint.Apply | Source/AxmolRive.cpp:113-121 | after a setter call the paint carries the given value, and the call changed nothing exactly when the paint already carried it |
| RenderPaint.SetterTouchesOneField | Source/AxmolRive.cpp:113-121 | each setter writes its value to its own field and leaves the other six unchanged |
| RenderPaint.DistinctSettersCommute | Source/AxmolRive.cpp:113-121 | setters of different fields commute |
| RenderPaint.LaterSetterWins | Source/AxmolRive.cpp:113-121 | of two calls to one setter only the later is visible |

## Left out

- `save`, `restore`, `startFrame` and `updateDrawNode` are declared in `Source/AxmolRive.h` (lines 113-114, 120 and 135), and `Source/AxmolRive.cpp` gives them no body. The container stack (`_containerStack`), the root and draw-node pointers and any save/restore/clip stack semantics are therefore not modelled. Only the live clip depth and the saved frames are carried, and no modelled call changes them.
- `prune` has no body in `Source/AxmolRive.cpp`, only its declaration and a one-line comment (`Source/AxmolRive.h:30-31`): old geometry is cleared and new geometry shifted to the front. `RenderPath.PruneContract` is this model's reading of that comment, with no implementation. Three details are the model's own choice. A zero count means nothing is stale, so the store is kept. A count that reaches its list's size clears both lists, even when the other list still has entries past its count: the model treats the pair of counts as one stale slice. Kept indices are rebased by subtracting the old vertex count in 16-bit arithmetic, matching the 16-bit storage of `addTriangles`.
- `AxmolRenderPath::rewind` first calls the runtime's `rive::TessRenderPath::rewind()` (`Source/AxmolRive.cpp:89`). That call resets the runtime's own triangulation state, which is foreign code. `RenderPath.Rewind` models only the two cleared lists.
- The triangulator (`TessRenderPath::triangulate`, `contour`), the stroke extruder (`extrudeStroke`, `ContourStroke`), `Mat2D` multiplication, `colorLerp`, the colour channel extraction and `Vec2D::distance` are runtime code, and no property depends on their bodies. The transform is the argument `xf`, the extruder's output the point sequence `strip`, and the triangulator's output the `Store` handed to `DrawPath`. The other three are fields of `Helpers`.
- Floating-point rounding is not modelled. This covers the centroid average, the dot product, the distance, the division by the axis length or radius, and the 0.0001 thresholds. All of them are computed over the reals.
- `ax::DrawNode::drawTriangle` is host rendering. It is modelled only as appending a triangle to `drawn`.
- The blend mode is stored by the paint but never applied when drawing. Thickness, join and cap only reach the foreign extruder.
- The factory (`AxmolFactory`) only does reference-counted construction, and its buffer and image requests return null. Path and gradient construction are modelled as `RenderPath.NewPath`, `Gradients.MakeLinear` and `Gradients.MakeRadial`.
- That `getColor` is a const query needs no separate statement here. `Gradients.Sample` is a pure function of an immutable gradient value, so sampling cannot change a shader's stops, colours or geometry.
- The renderer constructor's parameter type differs between files: a draw node in the .cpp, a node in the header. The draw target is treated as an abstract sink.
- `Source/MainScene.cpp` and `Source/MainScene.h` (scene bootstrap, file loading, the per-frame call into the artboard, input forwarding) are not part of this model.
