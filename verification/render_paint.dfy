/**
 * `AxmolRenderPaint`: a plain holder for the paint fields the animation
 * runtime sets one at a time.
 */
module RenderPaint {
  import opened RiveTypes
  import opened Gradients

  /** `rive::RenderPaintStyle`. */
  datatype PaintStyle = Stroke | Fill

  /** `rive::StrokeJoin`. */
  datatype StrokeJoin = Miter | RoundJoin | Bevel

  /** `rive::StrokeCap`. */
  datatype StrokeCap = Butt | RoundCap | Square

  /** `rive::BlendMode`. */
  datatype BlendMode =
    | SrcOver | Screen | Overlay | Darken | Lighten | ColorDodge | ColorBurn
    | HardLight | SoftLight | Difference | Exclusion | Multiply
    | Hue | Saturation | ColorMode | Luminosity

  datatype Paint = Paint(
    style: PaintStyle,
    color: ColorInt,
    thickness: real,
    join: StrokeJoin,
    cap: StrokeCap,
    blendMode: BlendMode,
    shader: Option<Gradient>)

  /** The field initialisers of a freshly constructed paint. */
  function NewPaint(): (p: Paint)
    ensures p.style == Fill && p.color == 0xFFFF_FFFF && p.thickness == 1.0
    ensures p.join == Miter && p.cap == Butt && p.blendMode == SrcOver
    ensures p.shader == None
  {
    Paint(Fill, 0xFFFF_FFFF, 1.0, Miter, Butt, SrcOver, None)
  }

  /** One call of a paint setter, with the value it was given. */
  datatype Setter =
    | SetStyle(style: PaintStyle)
    | SetColor(color: ColorInt)
    | SetThickness(thickness: real)
    | SetJoin(join: StrokeJoin)
    | SetCap(cap: StrokeCap)
    | SetBlendMode(blendMode: BlendMode)
    | SetShader(shader: Option<Gradient>)

  /** Whether the paint already carries the value a setter call would write. */
  predicate Holds(p: Paint, op: Setter) {
    match op
    case SetStyle(v) => p.style == v
    case SetColor(v) => p.color == v
    case SetThickness(v) => p.thickness == v
    case SetJoin(v) => p.join == v
    case SetCap(v) => p.cap == v
    case SetBlendMode(v) => p.blendMode == v
    case SetShader(v) => p.shader == v
  }

  /**
   * The setters, each assigning its own field: afterwards the paint carries
   * the value, and the call changed nothing exactly when it already did.
   */
  function Apply(p: Paint, op: Setter): (r: Paint)
    ensures Holds(r, op)
    ensures r == p <==> Holds(p, op)
  {
    match op
    case SetStyle(v) => p.(style := v)
    case SetColor(v) => p.(color := v)
    case SetThickness(v) => p.(thickness := v)
    case SetJoin(v) => p.(join := v)
    case SetCap(v) => p.(cap := v)
    case SetBlendMode(v) => p.(blendMode := v)
    case SetShader(v) => p.(shader := v)
  }

  /** `invalidateStroke`: nothing is cached, so nothing happens. */
  function InvalidateStroke(p: Paint): (r: Paint)
    ensures r == p
  {
    p
  }

  /**
   * Each setter writes the value it was given to its own field and leaves the
   * other six fields as they were.
   */
  lemma SetterTouchesOneField(p: Paint, op: Setter)
    ensures var r := Apply(p, op);
      && (if op.SetStyle? then r.style == op.style else r.style == p.style)
      && (if op.SetColor? then r.color == op.color else r.color == p.color)
      && (if op.SetThickness? then r.thickness == op.thickness else r.thickness == p.thickness)
      && (if op.SetJoin? then r.join == op.join else r.join == p.join)
      && (if op.SetCap? then r.cap == op.cap else r.cap == p.cap)
      && (if op.SetBlendMode? then r.blendMode == op.blendMode else r.blendMode == p.blendMode)
      && (if op.SetShader? then r.shader == op.shader else r.shader == p.shader)
  {
  }

  /** Which field a setter writes. */
  function Field(op: Setter): nat {
    match op
    case SetStyle(_) => 0
    case SetColor(_) => 1
    case SetThickness(_) => 2
    case SetJoin(_) => 3
    case SetCap(_) => 4
    case SetBlendMode(_) => 5
    case SetShader(_) => 6
  }

  /** Setters of different fields can be applied in either order. */
  lemma DistinctSettersCommute(p: Paint, a: Setter, b: Setter)
    requires Field(a) != Field(b)
    ensures Apply(Apply(p, a), b) == Apply(Apply(p, b), a)
  {
  }

  /** Of two calls to the same setter only the later one is visible. */
  lemma LaterSetterWins(p: Paint, a: Setter, b: Setter)
    requires Field(a) == Field(b)
    ensures Apply(Apply(p, a), b) == Apply(p, b)
  {
  }
}
