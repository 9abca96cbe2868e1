/**
 * Value types the animation runtime hands to the adapter, and the runtime
 * helpers the adapter calls without defining them.
 *
 * The helpers (colour channel extraction, colour interpolation, point
 * distance) are foreign code here: they are carried as function values in a
 * `Helpers` record, and every operation that needs one takes the record as an
 * argument, so no property below depends on how they are implemented.
 */
module RiveTypes {

  /** `uint16_t`: the width of a cached triangle index. */
  type U16 = i: int | 0 <= i < 0x1_0000

  /** `rive::ColorInt`: a packed 32-bit ARGB colour. */
  type ColorInt = c: int | 0 <= c < 0x1_0000_0000

  /** One 8-bit channel of an engine colour. */
  type Byte = b: int | 0 <= b < 0x100

  datatype Option<+T> = None | Some(value: T)

  /** `rive::Vec2D`, with its float coordinates idealised as reals. */
  datatype Vec2 = Vec2(x: real, y: real)

  function Sub(p: Vec2, q: Vec2): Vec2 {
    Vec2(p.x - q.x, p.y - q.y)
  }

  function Dot(p: Vec2, q: Vec2): real {
    p.x * q.x + p.y * q.y
  }

  function LengthSquared(p: Vec2): (r: real)
    ensures r >= 0.0
  {
    assert p.x * p.x >= 0.0 && p.y * p.y >= 0.0;
    Dot(p, p)
  }

  /** Runtime helpers whose bodies are not part of this model. */
  datatype Helpers = Helpers(
    red: ColorInt -> Byte,
    green: ColorInt -> Byte,
    blue: ColorInt -> Byte,
    alpha: ColorInt -> Byte,
    lerp: (ColorInt, ColorInt, real) -> ColorInt,
    distance: (Vec2, Vec2) -> real)
}

/** Engine-side colours and the conversion from runtime colours. */
module Colors {
  import opened RiveTypes

  /** `ax::Color32`. */
  datatype Color32 = Color32(r: Byte, g: Byte, b: Byte, a: Byte)

  /** `ax::Color32::WHITE`. */
  const White := Color32(0xFF, 0xFF, 0xFF, 0xFF)

  /** `toAxColor`: splits a runtime colour into its four channels. */
  function ToAxColor(h: Helpers, c: ColorInt): Color32 {
    Color32(h.red(c), h.green(c), h.blue(c), h.alpha(c))
  }
}
