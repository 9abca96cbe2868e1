/**
 * The two ways `drawPath` turns geometry into triangles, over an abstract
 * point type `P` and colour type `C`.
 *
 * A fill reads the cached indexed triangle list in complete triples and maps
 * each corner through the current transform; a stroke reads a triangle strip.
 * Each triangle is coloured by `shade`, applied to its three emitted corners.
 * `FillSpec` and `StrokeSpec` state the emitted list whole; `EmitFill` and
 * `EmitStroke` are the loops as the renderer runs them.
 */
module Triangles {

  datatype Tri<P, C> = Tri(a: P, b: P, c: P, color: C)

  function Shaded<P, C>(a: P, b: P, c: P, shade: (P, P, P) -> C): Tri<P, C> {
    Tri(a, b, c, shade(a, b, c))
  }

  /** Number of complete index triples. */
  function Triples(n: nat): nat {
    n / 3
  }

  /**
   * The fill reads vertices through the indices of complete triples without a
   * bounds check, so those indices must name cached vertices; with no cached
   * vertex it returns before reading any.
   */
  predicate Indexed<P>(verts: seq<P>, idx: seq<int>) {
    |verts| == 0 || forall k :: 0 <= k < Triples(|idx|) * 3 ==> 0 <= idx[k] < |verts|
  }

  lemma TripleInBounds(n: nat, t: nat)
    requires t < Triples(n)
    ensures 3 * t + 2 < Triples(n) * 3 <= n
  {
  }

  /** Corner `j` of triple `t`, before the transform. */
  function Corner<P>(verts: seq<P>, idx: seq<int>, t: nat, j: nat): P
    requires |verts| > 0 && Indexed(verts, idx) && t < Triples(|idx|) && j < 3
  {
    TripleInBounds(|idx|, t);
    verts[idx[3 * t + j]]
  }

  function FillTri<P, C>(verts: seq<P>, idx: seq<int>, t: nat, xf: P -> P, shade: (P, P, P) -> C): Tri<P, C>
    requires |verts| > 0 && Indexed(verts, idx) && t < Triples(|idx|)
  {
    Shaded(xf(Corner(verts, idx, t, 0)), xf(Corner(verts, idx, t, 1)), xf(Corner(verts, idx, t, 2)), shade)
  }

  /** Triangles of a fill: one per complete triple, none for an empty cache. */
  function FillSpec<P, C>(verts: seq<P>, idx: seq<int>, xf: P -> P, shade: (P, P, P) -> C): (r: seq<Tri<P, C>>)
    requires Indexed(verts, idx)
    ensures |r| == if |verts| == 0 || |idx| == 0 then 0 else |idx| / 3
  {
    if |verts| == 0 || |idx| == 0 then []
    else seq(Triples(|idx|), t requires 0 <= t < Triples(|idx|) => FillTri(verts, idx, t, xf, shade))
  }

  /** Triangles of a stroke: one per window of three consecutive strip points. */
  function StrokeSpec<P, C>(strip: seq<P>, shade: (P, P, P) -> C): (r: seq<Tri<P, C>>)
    ensures |r| == if |strip| >= 3 then |strip| - 2 else 0
    ensures forall i {:trigger r[i]} :: 0 <= i < |r| ==> r[i].a == strip[i] && r[i].c == strip[i + 2]
  {
    if |strip| >= 3
    then seq(|strip| - 2, i requires 0 <= i < |strip| - 2 => Shaded(strip[i], strip[i + 1], strip[i + 2], shade))
    else []
  }

  /**
   * The fill loop: step through the indices three at a time and stop at the
   * first triple that would run past the end.
   */
  method EmitFill<P, C>(verts: seq<P>, idx: seq<int>, xf: P -> P, shade: (P, P, P) -> C)
    returns (out: seq<Tri<P, C>>)
    requires Indexed(verts, idx)
    ensures |verts| == 0 || |idx| == 0 ==> out == []
    ensures |verts| > 0 && |idx| > 0 ==> |out| == |idx| / 3
    ensures forall t :: 0 <= t < |out| ==>
              out[t] == Shaded(xf(verts[idx[3 * t]]), xf(verts[idx[3 * t + 1]]), xf(verts[idx[3 * t + 2]]), shade)
    ensures out == FillSpec(verts, idx, xf, shade)
  {
    out := [];
    if |verts| == 0 || |idx| == 0 {
      return;
    }
    var i := 0;
    while i < |idx|
      invariant i % 3 == 0 && i <= |idx|
      invariant |out| == i / 3
      invariant forall t :: 0 <= t < |out| ==> out[t] == FillTri(verts, idx, t, xf, shade)
    {
      if i + 2 >= |idx| {
        break;
      }
      TripleInBounds(|idx|, i / 3);
      var v1 := xf(verts[idx[i]]);
      var v2 := xf(verts[idx[i + 1]]);
      var v3 := xf(verts[idx[i + 2]]);
      out := out + [Shaded(v1, v2, v3, shade)];
      i := i + 3;
    }
    assert |out| == Triples(|idx|);
    forall t | 0 <= t < |out|
      ensures out[t] == Shaded(xf(verts[idx[3 * t]]), xf(verts[idx[3 * t + 1]]), xf(verts[idx[3 * t + 2]]), shade)
    {
      TripleInBounds(|idx|, t);
    }
  }

  /** The stroke loop over a triangle strip. */
  method EmitStroke<P, C>(strip: seq<P>, shade: (P, P, P) -> C) returns (out: seq<Tri<P, C>>)
    ensures |out| == if |strip| >= 3 then |strip| - 2 else 0
    ensures forall i {:trigger out[i]} :: 0 <= i < |out| ==> out[i] == Shaded(strip[i], strip[i + 1], strip[i + 2], shade)
    ensures out == StrokeSpec(strip, shade)
  {
    out := [];
    if |strip| >= 3 {
      for i := 0 to |strip| - 2
        invariant |out| == i
        invariant forall k {:trigger out[k]} :: 0 <= k < i ==> out[k] == Shaded(strip[k], strip[k + 1], strip[k + 2], shade)
      {
        out := out + [Shaded(strip[i], strip[i + 1], strip[i + 2], shade)];
      }
    }
  }
}
