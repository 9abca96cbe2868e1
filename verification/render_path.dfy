/**
 * The triangle cache of `AxmolRenderPath`.
 *
 * The triangulator calls `addTriangles` with a batch of vertices and indices
 * that count from 0 within the batch; the path stores the vertices after the
 * ones it already holds and shifts the indices by the number of vertices held
 * before the batch, so the whole cache is one indexed triangle list in the
 * path's local coordinates. Indices are stored as `uint16_t`, so the shifted
 * value is truncated to 16 bits.
 */
module RenderPath {
  import opened RiveTypes

  /** `_rawVertices` and `_rawIndices`. */
  datatype Store<V> = Store(vertices: seq<V>, indices: seq<U16>)

  /**
   * The conversion of a `size_t` index to `unsigned short`: the one 16-bit
   * value that differs from `x` by a multiple of 65536.
   */
  function Wrap16(x: int): (r: U16)
    ensures 0 <= x < 0x1_0000 ==> r == x
    ensures (x - r) % 0x1_0000 == 0
  {
    var q := x / 0x1_0000;
    assert x - x % 0x1_0000 == q * 0x1_0000;
    x % 0x1_0000
  }

  /** A new path, or one from `makeEmptyRenderPath`, caches nothing. */
  function NewPath<V>(): (s: Store<V>)
    ensures s.vertices == [] && s.indices == []
  {
    Store([], [])
  }

  /** `rewind`: the path is being redefined, so its cached triangles are dropped. */
  function Rewind<V>(s: Store<V>): (r: Store<V>)
    ensures |r.vertices| == 0 && |r.indices| == 0
  {
    NewPath()
  }

  /** `setTriangulatedBounds`: accepted and ignored. */
  function SetTriangulatedBounds<V>(s: Store<V>, minX: real, minY: real, maxX: real, maxY: real): (r: Store<V>)
    ensures r == s
  {
    s
  }

  /** A batch's indices as they are stored after `base` vertices. */
  function Shifted(ix: seq<U16>, base: nat): (r: seq<U16>)
    ensures |r| == |ix|
  {
    seq(|ix|, k requires 0 <= k < |ix| => Wrap16(base + ix[k]))
  }

  /** `addTriangles`. */
  function AddTriangles<V>(s: Store<V>, vs: seq<V>, ix: seq<U16>): (r: Store<V>)
    ensures |r.vertices| == |s.vertices| + |vs| && |r.indices| == |s.indices| + |ix|
    ensures r.vertices[..|s.vertices|] == s.vertices && r.vertices[|s.vertices|..] == vs
    ensures r.indices[..|s.indices|] == s.indices
    ensures forall k :: 0 <= k < |ix| ==> r.indices[|s.indices| + k] == Wrap16(|s.vertices| + ix[k])
  {
    Store(s.vertices + vs, s.indices + Shifted(ix, |s.vertices|))
  }

  /** `addTriangles` as written: one push per vertex, then one push per index. */
  method AppendTriangles<V>(s: Store<V>, vs: seq<V>, ix: seq<U16>) returns (r: Store<V>)
    ensures r == AddTriangles(s, vs, ix)
  {
    var base := |s.vertices|;
    var vertices := s.vertices;
    for j := 0 to |vs|
      invariant vertices == s.vertices + vs[..j]
    {
      vertices := vertices + [vs[j]];
    }
    var indices := s.indices;
    for j := 0 to |ix|
      invariant |indices| == |s.indices| + j
      invariant indices[..|s.indices|] == s.indices
      invariant forall k :: 0 <= k < j ==> indices[|s.indices| + k] == Wrap16(base + ix[k])
    {
      indices := indices + [Wrap16(base + ix[j])];
    }
    assert vs[..|vs|] == vs;
    assert indices == s.indices + Shifted(ix, base) by {
      forall k | 0 <= k < |indices|
        ensures indices[k] == (s.indices + Shifted(ix, base))[k]
      {
        if k >= |s.indices| {
          assert indices[|s.indices| + (k - |s.indices|)] == Wrap16(base + ix[k - |s.indices|]);
        }
      }
    }
    r := Store(vertices, indices);
  }

  /**
   * A stored index names the vertex the batch meant exactly when the shifted
   * value fits in 16 bits; past 65536 cached vertices it wraps to an earlier one.
   */
  lemma StoredIndexFaithful<V>(s: Store<V>, vs: seq<V>, ix: seq<U16>, k: nat)
    requires k < |ix|
    ensures AddTriangles(s, vs, ix).indices[|s.indices| + k] == |s.vertices| + ix[k]
            <==> |s.vertices| + ix[k] < 0x1_0000
  {
  }

  /** Shifting by no vertices leaves a batch's indices as they are. */
  lemma ShiftedByZero(ix: seq<U16>)
    ensures Shifted(ix, 0) == ix
  {
    forall k | 0 <= k < |ix|
      ensures Shifted(ix, 0)[k] == ix[k]
    {
      assert Shifted(ix, 0)[k] == Wrap16(0 + ix[k]);
    }
  }

  /** After a rewind a batch is stored exactly as given. */
  lemma {:induction false} RewindThenAdd<V>(s: Store<V>, vs: seq<V>, ix: seq<U16>)
    ensures AddTriangles(Rewind(s), vs, ix) == Store(vs, ix)
  {
    ShiftedByZero(ix);
    assert AddTriangles(Rewind(s), vs, ix) == Store([] + vs, [] + Shifted(ix, 0));
  }

  // ---------------------------------------------------------------------------
  // prune
  // ---------------------------------------------------------------------------

  /**
   * The shift-and-rebase rule of `prune(oldV, oldI)`: the geometry cached
   * after the first `oldV` vertices and `oldI` indices moves to the front, and
   * each kept index is rebased by the `oldV` vertices removed, in 16-bit
   * unsigned arithmetic.
   */
  ghost predicate Rebased<V>(before: Store<V>, oldV: nat, oldI: nat, after: Store<V>) {
    && oldV <= |before.vertices| && oldI <= |before.indices|
    && |after.vertices| == |before.vertices| - oldV
    && |after.indices| == |before.indices| - oldI
    && (forall k :: 0 <= k < |after.vertices| ==> after.vertices[k] == before.vertices[oldV + k])
    && (forall k :: 0 <= k < |after.indices| ==> after.indices[k] == Wrap16(before.indices[oldI + k] - oldV))
  }

  /**
   * `prune(oldV, oldI)`, whose body is not part of this model, read from its
   * declaration's comment (old geometry is cleared, new geometry shifted to
   * the front) with two edge cases settled here: a zero count means nothing
   * is stale, so the store is kept; a count that reaches its list's size
   * means nothing new follows it, so the whole store is cleared. Otherwise
   * the shift-and-rebase rule applies.
   */
  ghost predicate PruneContract<V>(before: Store<V>, oldV: nat, oldI: nat, after: Store<V>) {
    if oldV == 0 || oldI == 0 then after == before
    else if oldV >= |before.vertices| || oldI >= |before.indices| then after == NewPath()
    else Rebased(before, oldV, oldI, after)
  }

  /** The contract fixes the pruned store completely. */
  lemma PruneIsDeterministic<V>(before: Store<V>, oldV: nat, oldI: nat, a: Store<V>, b: Store<V>)
    requires PruneContract(before, oldV, oldI, a) && PruneContract(before, oldV, oldI, b)
    ensures a == b
  {
    if oldV != 0 && oldI != 0 && oldV < |before.vertices| && oldI < |before.indices| {
      assert a.vertices == b.vertices;
      assert a.indices == b.indices;
    }
  }

  /**
   * `prune(0, 0)` keeps the store as it is, and this agrees with the
   * shift-and-rebase rule: at counts (0, 0) that rule admits exactly the
   * store itself.
   */
  lemma PruneZeroIsNoOp<V>(s: Store<V>, after: Store<V>)
    ensures PruneContract(s, 0, 0, after) <==> after == s
    ensures Rebased(s, 0, 0, after) <==> after == s
  {
    if Rebased(s, 0, 0, after) {
      assert after.vertices == s.vertices;
      assert after.indices == s.indices;
    }
  }

  /** Rebasing undoes the shift `addTriangles` applied, whatever the wrap-around. */
  lemma RebaseUndoesShift(base: nat, i: U16)
    ensures Wrap16(Wrap16(base + i) - base) == i
  {
    var q := (base + i) / 0x1_0000;
    assert Wrap16(base + i) == base + i - q * 0x1_0000;
    assert Wrap16(base + i) - base == i + (-q) * 0x1_0000;
  }

  /**
   * The batch added after `s` meets the contract of pruning at the sizes of
   * `s`; when the batch brought no vertex or no index, the cleared store does.
   */
  lemma PruneLeavesBatch<V>(s: Store<V>, vs: seq<V>, ix: seq<U16>)
    requires |s.vertices| > 0 && |s.indices| > 0
    ensures |vs| > 0 && |ix| > 0 ==> PruneContract(AddTriangles(s, vs, ix), |s.vertices|, |s.indices|, Store(vs, ix))
    ensures |vs| == 0 || |ix| == 0 ==> PruneContract(AddTriangles(s, vs, ix), |s.vertices|, |s.indices|, NewPath())
  {
    var full := AddTriangles(s, vs, ix);
    var oldV, oldI := |s.vertices|, |s.indices|;
    forall k | 0 <= k < |ix|
      ensures Wrap16(full.indices[oldI + k] - oldV) == ix[k]
    {
      RebaseUndoesShift(oldV, ix[k]);
    }
    forall k | 0 <= k < |vs|
      ensures full.vertices[oldV + k] == vs[k]
    {
      assert full.vertices[oldV..][k] == vs[k];
    }
  }

  /**
   * Pruning at the sizes taken before a batch was added leaves exactly that
   * batch, stored as it would be in an empty path, or an empty store when the
   * batch brought no vertex or no index; and nothing else meets the contract.
   */
  lemma PruneKeepsLatestBatch<V>(s: Store<V>, vs: seq<V>, ix: seq<U16>, after: Store<V>)
    requires |s.vertices| > 0 && |s.indices| > 0
    ensures PruneContract(AddTriangles(s, vs, ix), |s.vertices|, |s.indices|, after)
            <==> after == (if |vs| > 0 && |ix| > 0 then AddTriangles(NewPath(), vs, ix) else NewPath())
  {
    RewindThenAdd(s, vs, ix);
    PruneLeavesBatch(s, vs, ix);
    var expected: Store<V> := if |vs| > 0 && |ix| > 0 then Store(vs, ix) else NewPath();
    if PruneContract(AddTriangles(s, vs, ix), |s.vertices|, |s.indices|, after) {
      PruneIsDeterministic(AddTriangles(s, vs, ix), |s.vertices|, |s.indices|, after, expected);
    }
  }

  /**
   * Add [A, B]/[0, 1, 0] to an empty path, prune at (0, 0), add [C]/[0], and
   * prune at (2, 3), the sizes before the second batch: the store ends up
   * holding only [C]/[0].
   */
  lemma PruneScenario<V>(a: V, b: V, c: V, mid: Store<V>, after: Store<V>)
    requires PruneContract(AddTriangles(NewPath(), [a, b], [0, 1, 0]), 0, 0, mid)
    requires PruneContract(AddTriangles(mid, [c], [0]), 2, 3, after)
    ensures after == Store([c], [0])
  {
    var first := AddTriangles(NewPath(), [a, b], [0, 1, 0]);
    PruneZeroIsNoOp(first, mid);
    RewindThenAdd(first, [a, b], [0, 1, 0]);
    PruneKeepsLatestBatch(first, [c], [0], after);
    RewindThenAdd(first, [c], [0]);
  }
}
