/**
 * The two gradient shaders, `AxmolLinearGradient` and `AxmolRadialGradient`.
 *
 * A gradient keeps its colours and stop positions in two parallel lists that
 * its constructor fills from `count` entries of each input array; here they
 * are one list of `Stop` pairs, so that the two always have the same length.
 * Both shaders reduce a point to a parameter `t` and then share the same stop
 * lookup, which is modelled once as `Lookup`.
 */
module Gradients {
  import opened RiveTypes
  import opened Colors

  datatype Stop = Stop(color: ColorInt, pos: real)

  datatype Gradient =
    | Linear(start: Vec2, end: Vec2, stops: seq<Stop>)
    | Radial(center: Vec2, radius: real, stops: seq<Stop>)

  /** Threshold under which the axis length squared, or the radius, is degenerate. */
  const Epsilon: real := 0.0001

  function ColorsOf(stops: seq<Stop>): (cs: seq<ColorInt>)
    ensures |cs| == |stops|
  {
    seq(|stops|, k requires 0 <= k < |stops| => stops[k].color)
  }

  function PositionsOf(stops: seq<Stop>): (ps: seq<real>)
    ensures |ps| == |stops|
  {
    seq(|stops|, k requires 0 <= k < |stops| => stops[k].pos)
  }

  function Last(stops: seq<Stop>): Stop
    requires |stops| > 0
  {
    stops[|stops| - 1]
  }

  // ---------------------------------------------------------------------------
  // Construction
  // ---------------------------------------------------------------------------

  /** The constructors' copy loop: reads `count` colours and `count` stops, in order. */
  method CopyStops(colors: seq<ColorInt>, positions: seq<real>, count: nat) returns (stops: seq<Stop>)
    requires count <= |colors| && count <= |positions|
    ensures ColorsOf(stops) == colors[..count]
    ensures PositionsOf(stops) == positions[..count]
  {
    stops := [];
    for i := 0 to count
      invariant |stops| == i
      invariant forall k :: 0 <= k < i ==> stops[k] == Stop(colors[k], positions[k])
    {
      stops := stops + [Stop(colors[i], positions[i])];
    }
  }

  method MakeLinear(sx: real, sy: real, ex: real, ey: real,
                    colors: seq<ColorInt>, positions: seq<real>, count: nat)
    returns (g: Gradient)
    requires count <= |colors| && count <= |positions|
    ensures g.Linear? && g.start == Vec2(sx, sy) && g.end == Vec2(ex, ey)
    ensures ColorsOf(g.stops) == colors[..count]
    ensures PositionsOf(g.stops) == positions[..count]
  {
    var stops := CopyStops(colors, positions, count);
    g := Linear(Vec2(sx, sy), Vec2(ex, ey), stops);
  }

  method MakeRadial(cx: real, cy: real, radius: real,
                    colors: seq<ColorInt>, positions: seq<real>, count: nat)
    returns (g: Gradient)
    requires count <= |colors| && count <= |positions|
    ensures g.Radial? && g.center == Vec2(cx, cy) && g.radius == radius
    ensures ColorsOf(g.stops) == colors[..count]
    ensures PositionsOf(g.stops) == positions[..count]
  {
    var stops := CopyStops(colors, positions, count);
    g := Radial(Vec2(cx, cy), radius, stops);
  }

  // ---------------------------------------------------------------------------
  // Stop lookup, shared by both shaders
  // ---------------------------------------------------------------------------

  /** `std::max(0.0f, std::min(1.0f, t))`. */
  function Clamp01(t: real): (u: real)
    ensures 0.0 <= u <= 1.0
    ensures 0.0 <= t <= 1.0 ==> u == t
    ensures t < 0.0 ==> u == 0.0
    ensures t > 1.0 ==> u == 1.0
  {
    var m := if t < 1.0 then t else 1.0;
    if m > 0.0 then m else 0.0
  }

  /** Stops `i` and `i + 1` enclose `t`. */
  predicate Brackets(stops: seq<Stop>, t: real, i: nat) {
    i + 1 < |stops| && stops[i].pos <= t <= stops[i + 1].pos
  }

  /** `i` is the first enclosing pair, the one the scan stops at. */
  predicate IsFirstBracket(stops: seq<Stop>, t: real, i: nat) {
    Brackets(stops, t, i) && forall j :: 0 <= j < i ==> !Brackets(stops, t, j)
  }

  /** The scan over `i = from, from + 1, ...` for the first enclosing pair. */
  function FirstBracket(stops: seq<Stop>, t: real, from: nat): (r: Option<nat>)
    decreases |stops| - from
    ensures r.Some? ==> from <= r.value && Brackets(stops, t, r.value)
    ensures r.Some? ==> forall j :: from <= j < r.value ==> !Brackets(stops, t, j)
    ensures r.None? ==> forall j :: from <= j ==> !Brackets(stops, t, j)
  {
    if from + 1 >= |stops| then None
    else if stops[from].pos <= t <= stops[from + 1].pos then Some(from)
    else FirstBracket(stops, t, from + 1)
  }

  /** The fraction of the way `t` lies from stop `i` to stop `i + 1`. */
  function LocalT(stops: seq<Stop>, t: real, i: nat): (f: real)
    requires i + 1 < |stops|
    ensures Brackets(stops, t, i) ==> 0.0 <= f <= 1.0
    ensures stops[i + 1].pos > stops[i].pos ==>
              stops[i].pos + f * (stops[i + 1].pos - stops[i].pos) == t
  {
    var range := stops[i + 1].pos - stops[i].pos;
    var f := (t - stops[i].pos) / (if range > 0.0 then range else 1.0);
    assert Brackets(stops, t, i) && range > 0.0 ==> f * range == t - stops[i].pos <= range;
    f
  }

  /** The colour of parameter `t` (already clamped) on a non-empty stop list. */
  function Lookup(h: Helpers, stops: seq<Stop>, t: real): (c: Color32)
    requires |stops| > 0
    ensures t <= stops[0].pos ==> c == ToAxColor(h, stops[0].color)
    ensures stops[0].pos < t && Last(stops).pos <= t ==> c == ToAxColor(h, Last(stops).color)
    ensures forall i: nat {:trigger IsFirstBracket(stops, t, i)} ::
              stops[0].pos < t < Last(stops).pos && IsFirstBracket(stops, t, i) ==>
                c == ToAxColor(h, h.lerp(stops[i].color, stops[i + 1].color, LocalT(stops, t, i)))
    ensures (forall j :: 0 <= j ==> !Brackets(stops, t, j)) && stops[0].pos < t ==>
              c == ToAxColor(h, Last(stops).color)
  {
    if t <= stops[0].pos then ToAxColor(h, stops[0].color)
    else if t >= Last(stops).pos then ToAxColor(h, Last(stops).color)
    else match FirstBracket(stops, t, 0)
      case Some(i) => ToAxColor(h, h.lerp(stops[i].color, stops[i + 1].color, LocalT(stops, t, i)))
      case None => ToAxColor(h, Last(stops).color)
  }

  // ---------------------------------------------------------------------------
  // The two shaders
  // ---------------------------------------------------------------------------

  /** Zero-length axis, or zero radius, up to the threshold. */
  predicate Degenerate(g: Gradient) {
    match g
    case Linear(s, e, _) => LengthSquared(Sub(e, s)) <= Epsilon
    case Radial(_, r, _) => r <= Epsilon
  }

  /** The linear gradient's parameter: the projection of `p` onto the axis, in axis lengths. */
  function LinearT(start: Vec2, end: Vec2, p: Vec2): (t: real)
    requires LengthSquared(Sub(end, start)) > Epsilon
    ensures p == start ==> t == 0.0
    ensures p == end ==> t == 1.0
  {
    var n, d := Dot(Sub(p, start), Sub(end, start)), LengthSquared(Sub(end, start));
    assert p == end ==> n == d;
    assert n == d ==> n / d == 1.0;
    n / d
  }

  /** The radial gradient's parameter: the distance of `p` from the centre, in radii. */
  function RadialT(h: Helpers, center: Vec2, radius: real, p: Vec2): (t: real)
    requires radius > Epsilon
    ensures t * radius == h.distance(p, center)
    ensures t >= 1.0 <==> h.distance(p, center) >= radius
    ensures t <= 0.0 <==> h.distance(p, center) <= 0.0
  {
    h.distance(p, center) / radius
  }

  /** `getColor(x, y)` of either shader. */
  function Sample(h: Helpers, g: Gradient, p: Vec2): (c: Color32)
    ensures |g.stops| == 0 ==> c == White
    ensures |g.stops| > 0 && Degenerate(g) ==> c == ToAxColor(h, g.stops[0].color)
  {
    if |g.stops| == 0 then White
    else if Degenerate(g) then ToAxColor(h, g.stops[0].color)
    else match g
      case Linear(s, e, stops) => Lookup(h, stops, Clamp01(LinearT(s, e, p)))
      case Radial(o, r, stops) => Lookup(h, stops, Clamp01(RadialT(h, o, r, p)))
  }

  // ---------------------------------------------------------------------------
  // Properties
  // ---------------------------------------------------------------------------

  predicate Ascending(stops: seq<Stop>) {
    forall i, j :: 0 <= i <= j < |stops| ==> stops[i].pos <= stops[j].pos
  }

  /** All stop positions lie in [0, 1]. */
  predicate InUnitRange(stops: seq<Stop>) {
    forall i :: 0 <= i < |stops| ==> 0.0 <= stops[i].pos <= 1.0
  }

  /** With ascending stops, a scan that starts at an enclosed position finds a pair. */
  lemma {:induction false} AscendingScanFinds(stops: seq<Stop>, t: real, from: nat)
    requires Ascending(stops)
    requires from + 1 < |stops| && stops[from].pos <= t <= Last(stops).pos
    ensures FirstBracket(stops, t, from).Some?
    decreases |stops| - from
  {
    if t > stops[from + 1].pos {
      AscendingScanFinds(stops, t, from + 1);
    }
  }

  /**
   * With ascending stops, every `t` strictly between the first and last stop
   * is coloured by interpolating its first enclosing pair, at a fraction in [0, 1].
   */
  lemma InteriorIsInterpolated(h: Helpers, stops: seq<Stop>, t: real)
    requires |stops| > 0 && Ascending(stops)
    requires stops[0].pos < t < Last(stops).pos
    ensures exists i: nat ::
              IsFirstBracket(stops, t, i) && 0.0 <= LocalT(stops, t, i) <= 1.0 &&
              Lookup(h, stops, t) == ToAxColor(h, h.lerp(stops[i].color, stops[i + 1].color, LocalT(stops, t, i)))
  {
    AscendingScanFinds(stops, t, 0);
    var i := FirstBracket(stops, t, 0).value;
    assert IsFirstBracket(stops, t, i);
  }

  /** A gradient with one stop has that stop's colour everywhere. */
  lemma SingleStopIsConstant(h: Helpers, g: Gradient, p: Vec2)
    requires |g.stops| == 1
    ensures Sample(h, g, p) == ToAxColor(h, g.stops[0].color)
  {
  }

  /**
   * Parameters at or below 0 give the first colour. Parameters at or above 1
   * give the last colour, unless the first stop is already at 1: then the
   * front shortcut answers first and they give the first colour.
   */
  lemma ClampedEnds(h: Helpers, stops: seq<Stop>, t: real)
    requires |stops| > 0 && InUnitRange(stops)
    ensures t <= 0.0 ==> Lookup(h, stops, Clamp01(t)) == ToAxColor(h, stops[0].color)
    ensures t >= 1.0 && stops[0].pos < 1.0 ==> Lookup(h, stops, Clamp01(t)) == ToAxColor(h, Last(stops).color)
    ensures t >= 1.0 && stops[0].pos == 1.0 ==> Lookup(h, stops, Clamp01(t)) == ToAxColor(h, stops[0].color)
  {
  }

  /**
   * Two ascending stops both at 1 with different colours: at t = 1 the lookup
   * gives the first colour, not the last.
   */
  lemma TiedEndStopsGiveFirst(h: Helpers, c1: ColorInt, c2: ColorInt)
    ensures var stops := [Stop(c1, 1.0), Stop(c2, 1.0)];
            Ascending(stops) && InUnitRange(stops) && Lookup(h, stops, Clamp01(1.0)) == ToAxColor(h, c1)
  {
  }

  /** The linear parameter of the point `start + k * (end - start)` is `k`. */
  lemma LinearTOnAxis(start: Vec2, end: Vec2, k: real, p: Vec2)
    requires LengthSquared(Sub(end, start)) > Epsilon
    requires p == Vec2(start.x + k * (end.x - start.x), start.y + k * (end.y - start.y))
    ensures LinearT(start, end, p) == k
  {
    var d := Sub(end, start);
    assert Sub(p, start) == Vec2(k * d.x, k * d.y);
    assert Dot(Sub(p, start), d) == k * LengthSquared(d);
  }

  /**
   * On the axis of a non-degenerate linear gradient with stops in [0, 1], every
   * point before the start has the first colour, and every point past the end
   * has the last colour, or the first when the first stop is already at 1.
   */
  lemma LinearBeyondEnds(h: Helpers, g: Gradient, k: real)
    requires g.Linear? && !Degenerate(g)
    requires |g.stops| > 0 && InUnitRange(g.stops)
    ensures var p := Vec2(g.start.x + k * (g.end.x - g.start.x), g.start.y + k * (g.end.y - g.start.y));
            (k <= 0.0 ==> Sample(h, g, p) == ToAxColor(h, g.stops[0].color)) &&
            (k >= 1.0 && g.stops[0].pos < 1.0 ==> Sample(h, g, p) == ToAxColor(h, Last(g.stops).color)) &&
            (k >= 1.0 && g.stops[0].pos == 1.0 ==> Sample(h, g, p) == ToAxColor(h, g.stops[0].color))
  {
    var p := Vec2(g.start.x + k * (g.end.x - g.start.x), g.start.y + k * (g.end.y - g.start.y));
    assert LengthSquared(Sub(g.end, g.start)) > Epsilon;
    LinearTOnAxis(g.start, g.end, k, p);
    assert Sample(h, g, p) == Lookup(h, g.stops, Clamp01(k));
    ClampedEnds(h, g.stops, k);
  }

  /**
   * For a non-degenerate radial gradient with stops in [0, 1], points at the
   * centre have the first colour, and points on or outside the circle the
   * last, or the first when the first stop is already at 1.
   */
  lemma RadialEnds(h: Helpers, g: Gradient, p: Vec2)
    requires g.Radial? && !Degenerate(g)
    requires |g.stops| > 0 && InUnitRange(g.stops)
    ensures h.distance(p, g.center) <= 0.0 ==> Sample(h, g, p) == ToAxColor(h, g.stops[0].color)
    ensures h.distance(p, g.center) >= g.radius && g.stops[0].pos < 1.0 ==>
              Sample(h, g, p) == ToAxColor(h, Last(g.stops).color)
    ensures h.distance(p, g.center) >= g.radius && g.stops[0].pos == 1.0 ==>
              Sample(h, g, p) == ToAxColor(h, g.stops[0].color)
  {
    var d := h.distance(p, g.center);
    var t := RadialT(h, g.center, g.radius, p);
    assert t == d / g.radius;
    assert t * g.radius == d;
    assert d >= g.radius ==> t >= 1.0;
    assert d <= 0.0 ==> t <= 0.0;
    assert Sample(h, g, p) == Lookup(h, g.stops, Clamp01(t));
    ClampedEnds(h, g.stops, t);
    assert t >= 1.0 && g.stops[0].pos < 1.0 ==> Lookup(h, g.stops, Clamp01(t)) == ToAxColor(h, Last(g.stops).color);
  }
}
