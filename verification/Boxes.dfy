/** Axis-aligned boxes over the reals, in any dimension. */
module Boxes {

  datatype Box = Box(lo: seq<real>, hi: seq<real>)

  ghost predicate Shaped(b: Box, dim: nat)
  {
    |b.lo| == |b.hi| == dim
  }

  ghost predicate Ordered(b: Box)
  {
    |b.lo| == |b.hi| && forall d :: 0 <= d < |b.lo| ==> b.lo[d] <= b.hi[d]
  }

  /** `overlaps`: no axis separates the two boxes. */
  predicate Overlaps(a: Box, b: Box)
  {
    forall d :: 0 <= d < |a.lo| && d < |a.hi| && d < |b.lo| && d < |b.hi| ==>
      !(b.lo[d] > a.hi[d] || b.hi[d] < a.lo[d])
  }

  ghost predicate Inside(a: Box, b: Box)
  {
    && |a.lo| == |a.hi| == |b.lo| == |b.hi|
    && forall d :: 0 <= d < |a.lo| ==> b.lo[d] <= a.lo[d] && a.hi[d] <= b.hi[d]
  }

  lemma InsideOverlaps(a: Box, b: Box, q: Box)
    requires Inside(a, b) && Overlaps(a, q)
    ensures Overlaps(b, q)
  {
    forall d | 0 <= d < |b.lo| && d < |b.hi| && d < |q.lo| && d < |q.hi|
      ensures !(q.lo[d] > b.hi[d] || q.hi[d] < b.lo[d])
    {
      assert !(q.lo[d] > a.hi[d] || q.hi[d] < a.lo[d]);
    }
  }

  function Min(x: real, y: real): real { if x < y then x else y }

  function Max(x: real, y: real): real { if x < y then y else x }

  ghost predicate Contains(b: Box, p: seq<real>)
  {
    |b.lo| == |b.hi| == |p| && forall d :: 0 <= d < |p| ==> b.lo[d] <= p[d] <= b.hi[d]
  }

  /** Two boxes overlap exactly if they have a point in common, be it one of their sides only. */
  lemma OverlapsIff(a: Box, b: Box, dim: nat)
    requires Shaped(a, dim) && Shaped(b, dim) && Ordered(a) && Ordered(b)
    ensures Overlaps(a, b) <==> exists p :: Contains(a, p) && Contains(b, p)
  {
    if Overlaps(a, b) {
      var p := seq(dim, d requires 0 <= d < dim => Max(a.lo[d], b.lo[d]));
      forall d | 0 <= d < dim
        ensures a.lo[d] <= p[d] <= a.hi[d] && b.lo[d] <= p[d] <= b.hi[d]
      {
        assert !(b.lo[d] > a.hi[d] || b.hi[d] < a.lo[d]);
      }
      assert Contains(a, p) && Contains(b, p);
    } else if p :| Contains(a, p) && Contains(b, p) {
      forall d | 0 <= d < dim
        ensures !(b.lo[d] > a.hi[d] || b.hi[d] < a.lo[d])
      {
        assert a.lo[d] <= p[d] <= b.hi[d] && b.lo[d] <= p[d] <= a.hi[d];
      }
    }
  }

  /** `merge(box, p)`: the box grown to a point. */
  function MergePoint(b: Box, p: seq<real>): (r: Box)
    requires |b.lo| == |b.hi| == |p|
    ensures |r.lo| == |r.hi| == |p|
  {
    Box(seq(|p|, d requires 0 <= d < |p| => Min(b.lo[d], p[d])),
        seq(|p|, d requires 0 <= d < |p| => Max(b.hi[d], p[d])))
  }

  /** The two `merge` calls of a refit step. */
  function Merge(a: Box, b: Box): (r: Box)
    requires |a.lo| == |a.hi| == |b.lo| == |b.hi|
    ensures |r.lo| == |r.hi| == |a.lo|
  {
    MergePoint(MergePoint(a, b.lo), b.hi)
  }

  /** For proper boxes the merged box is the union: it contains both, and every box that
      contains both contains it. */
  lemma MergeIsUnion(a: Box, b: Box)
    requires Ordered(a) && Ordered(b) && |a.lo| == |b.lo|
    ensures Ordered(Merge(a, b)) && Inside(a, Merge(a, b)) && Inside(b, Merge(a, b))
    ensures forall c :: Inside(a, c) && Inside(b, c) ==> Inside(Merge(a, b), c)
  {
  }
}
