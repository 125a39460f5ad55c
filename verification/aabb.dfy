/**
 * AABB (Gamma/Sources/AABB.hpp, AABB.cpp): an axis-aligned bounding box
 * grown point by point with component-wise min and max.
 *
 * `Box` is the value a box holds; the class `AABB` is the object the source
 * updates in place.
 */
module Bounds {
  import opened Vectors

  /** FLT_MAX from <float.h>: the largest finite single-precision float. */
  const FLT_MAX: real := 340282346638528859811704183484516925440.0

  datatype Box = Box(mins: Vec3, maxs: Vec3)

  /** The point lies inside the box (boundary included) on every axis. */
  predicate Contains(b: Box, p: Vec3)
  {
    LessEq(b.mins, p) && LessEq(p, b.maxs)
  }

  /** Box `c` reaches at least as far as box `b` on every side. */
  predicate Covers(c: Box, b: Box)
  {
    LessEq(c.mins, b.mins) && LessEq(b.maxs, c.maxs)
  }

  /** Every component of `p` is a finite single-precision value. */
  predicate Finite(p: Vec3)
  {
    -FLT_MAX <= p.x <= FLT_MAX && -FLT_MAX <= p.y <= FLT_MAX && -FLT_MAX <= p.z <= FLT_MAX
  }

  /** The default box: mins at FLT_MAX and maxs at -FLT_MAX, so it holds no point. */
  function EmptyBox(): (b: Box)
    ensures forall p :: !Contains(b, p)
    ensures b.mins == Splat(FLT_MAX) && b.maxs == Splat(-FLT_MAX)
  {
    Box(Splat(FLT_MAX), Splat(-FLT_MAX))
  }

  /** expand(p) on the box value: mins = min(mins, p), maxs = max(maxs, p). */
  function Grow(b: Box, p: Vec3): (r: Box)
    ensures Contains(r, p)
    ensures Covers(r, b)
    ensures Contains(b, p) ==> r == b
  {
    Box(Min3(b.mins, p), Max3(b.maxs, p))
  }

  /** The grown box is the smallest box that covers the old one and holds `p`. */
  lemma {:induction false} GrowIsLeast(b: Box, p: Vec3, c: Box)
    requires Covers(c, b) && Contains(c, p)
    ensures Covers(c, Grow(b, p))
  {
  }

  /** Growing by the same point twice is growing once. */
  lemma {:induction false} GrowIdempotent(b: Box, p: Vec3)
    ensures Grow(Grow(b, p), p) == Grow(b, p)
  {
  }

  /** The default box grown by a finite point is the point itself. */
  lemma {:induction false} GrowEmpty(p: Vec3)
    requires Finite(p)
    ensures Grow(EmptyBox(), p) == Box(p, p)
  {
  }

  /** Two points can be added in either order. */
  lemma {:induction false} GrowCommutes(b: Box, p: Vec3, q: Vec3)
    ensures Grow(Grow(b, p), q) == Grow(Grow(b, q), p)
  {
    Min3Associates(b.mins, p, q);
    Min3Associates(b.mins, q, p);
    Min3Commutes(p, q);
    Max3Associates(b.maxs, p, q);
    Max3Associates(b.maxs, q, p);
    Max3Commutes(p, q);
  }

  /** The box grown by each point of `ps`, first to last. */
  function GrowAll(b: Box, ps: seq<Vec3>): (r: Box)
    ensures Covers(r, b)
    ensures forall i :: 0 <= i < |ps| ==> Contains(r, ps[i])
    decreases |ps|
  {
    if ps == [] then b
    else Grow(GrowAll(b, ps[..|ps| - 1]), ps[|ps| - 1])
  }

  /** A point in the middle of the sequence can be added last instead. */
  lemma {:induction false} GrowAllMiddle(b: Box, a: seq<Vec3>, x: Vec3, c: seq<Vec3>)
    ensures GrowAll(b, a + [x] + c) == Grow(GrowAll(b, a + c), x)
    decreases |c|
  {
    if c == [] {
      assert a + [x] + c == a + [x];
      assert (a + [x])[..|a|] == a;
      assert a + c == a;
    } else {
      var c' := c[..|c| - 1];
      var y := c[|c| - 1];
      assert a + [x] + c == (a + [x] + c') + [y];
      assert (a + [x] + c)[..|a + [x] + c| - 1] == a + [x] + c';
      assert a + c == (a + c') + [y];
      assert (a + c)[..|a + c| - 1] == a + c';
      GrowAllMiddle(b, a, x, c');
      GrowCommutes(GrowAll(b, a + c'), x, y);
    }
  }

  /** Taking the same element out of two equal multisets leaves equal multisets. */
  lemma {:induction false} MultisetRemove<T>(p: seq<T>, x: T, a: seq<T>, c: seq<T>)
    requires multiset(p + [x]) == multiset(a + [x] + c)
    ensures multiset(p) == multiset(a + c)
  {
    assert multiset(p + [x]) == multiset(p) + multiset{x};
    assert multiset(a + [x] + c) == multiset(a) + multiset{x} + multiset(c);
    assert multiset(a + c) == multiset(a) + multiset(c);
    forall y
      ensures multiset(p)[y] == multiset(a + c)[y]
    {
      assert multiset(p + [x])[y] == multiset(a + [x] + c)[y];
    }
  }

  /** Growing by a sequence of points gives the same box whatever their order. */
  lemma {:induction false} GrowAllPermutation(b: Box, ps: seq<Vec3>, qs: seq<Vec3>)
    requires multiset(ps) == multiset(qs)
    ensures GrowAll(b, ps) == GrowAll(b, qs)
    decreases |ps|
  {
    if ps == [] {
      assert |qs| == |multiset(qs)| == 0;
    } else {
      var n := |ps| - 1;
      var x := ps[n];
      assert ps == ps[..n] + [x];
      assert x in multiset(qs);
      var j :| 0 <= j < |qs| && qs[j] == x;
      var a, c := qs[..j], qs[j + 1..];
      assert qs == a + [x] + c;
      MultisetRemove(ps[..n], x, a, c);
      GrowAllPermutation(b, ps[..n], a + c);
      GrowAllMiddle(b, a, x, c);
    }
  }

  /** expand(box) on box values: grow by the other box's mins, then by its maxs. */
  function ExpandByBox(b: Box, c: Box): (r: Box)
    ensures Covers(r, b)
    ensures Contains(r, c.mins) && Contains(r, c.maxs)
    ensures LessEq(c.mins, c.maxs) ==> Covers(r, c)
  {
    Grow(Grow(b, c.mins), c.maxs)
  }

  /** The box expanded by each box of `cs`, first to last (the calculateAABB fold). */
  function ExpandAll(b: Box, cs: seq<Box>): (r: Box)
    ensures Covers(r, b)
    ensures forall i :: 0 <= i < |cs| ==> Contains(r, cs[i].mins) && Contains(r, cs[i].maxs)
    decreases |cs|
  {
    if cs == [] then b
    else ExpandByBox(ExpandAll(b, cs[..|cs| - 1]), cs[|cs| - 1])
  }

  /** The corners of the boxes, mins before maxs, in box order. */
  function Corners(cs: seq<Box>): (ps: seq<Vec3>)
    ensures |ps| == 2 * |cs|
    ensures forall i :: 0 <= i < |cs| ==> ps[2 * i] == cs[i].mins && ps[2 * i + 1] == cs[i].maxs
    decreases |cs|
  {
    if cs == [] then []
    else Corners(cs[..|cs| - 1]) + [cs[|cs| - 1].mins, cs[|cs| - 1].maxs]
  }

  /** Expanding by boxes is growing by their corners, in order. */
  lemma {:induction false} ExpandAllIsGrowAll(b: Box, cs: seq<Box>)
    ensures ExpandAll(b, cs) == GrowAll(b, Corners(cs))
    decreases |cs|
  {
    if cs != [] {
      var n := |cs| - 1;
      var ps := Corners(cs);
      var init := Corners(cs[..n]);
      assert ps == init + [cs[n].mins] + [cs[n].maxs];
      assert ps[..|ps| - 1] == init + [cs[n].mins];
      assert ps[..|ps| - 1][..|init|] == init;
      ExpandAllIsGrowAll(b, cs[..n]);
    }
  }

  /** Corners of `a + c` are the corners of `a` followed by those of `c`. */
  lemma {:induction false} CornersAppend(a: seq<Box>, c: seq<Box>)
    ensures Corners(a + c) == Corners(a) + Corners(c)
    decreases |c|
  {
    if c != [] {
      var n := |c| - 1;
      assert (a + c)[..|a + c| - 1] == a + c[..n];
      assert (a + c)[|a + c| - 1] == c[n];
      CornersAppend(a, c[..n]);
      var last := [c[n].mins, c[n].maxs];
      assert Corners(a + c) == Corners(a) + Corners(c[..n]) + last;
      assert Corners(c) == Corners(c[..n]) + last;
    } else {
      assert a + c == a;
    }
  }

  /** The corners of a box in the middle count like those of a box at the end. */
  lemma {:induction false} CornersMiddle(a: seq<Box>, x: Box, c: seq<Box>)
    ensures multiset(Corners(a + [x] + c)) == multiset(Corners(a + c)) + multiset{x.mins, x.maxs}
  {
    CornersAppend(a, c);
    CornersAppend(a + [x], c);
    CornersAppend(a, [x]);
    assert Corners([x]) == [x.mins, x.maxs] by {
      assert [x][..0] == [];
    }
  }

  /** Reordering the boxes reorders their corners. */
  lemma {:induction false} CornersPermutation(cs: seq<Box>, ds: seq<Box>)
    requires multiset(cs) == multiset(ds)
    ensures multiset(Corners(cs)) == multiset(Corners(ds))
    decreases |cs|
  {
    if cs == [] {
      assert |ds| == |multiset(ds)| == 0;
    } else {
      var n := |cs| - 1;
      var x := cs[n];
      assert cs == cs[..n] + [x];
      assert x in multiset(ds);
      var j :| 0 <= j < |ds| && ds[j] == x;
      var a, c := ds[..j], ds[j + 1..];
      assert ds == a + [x] + c;
      MultisetRemove(cs[..n], x, a, c);
      CornersPermutation(cs[..n], a + c);
      CornersMiddle(a, x, c);
      assert Corners(cs) == Corners(cs[..n]) + [x.mins, x.maxs];
    }
  }

  /** The boxes of a model give the same bounds whatever order they are folded in. */
  lemma {:induction false} ExpandAllPermutation(b: Box, cs: seq<Box>, ds: seq<Box>)
    requires multiset(cs) == multiset(ds)
    ensures ExpandAll(b, cs) == ExpandAll(b, ds)
  {
    ExpandAllIsGrowAll(b, cs);
    ExpandAllIsGrowAll(b, ds);
    CornersPermutation(cs, ds);
    GrowAllPermutation(b, Corners(cs), Corners(ds));
  }

  /** The AABB object: its two corners are updated in place by expand. */
  class AABB {
    var mins: Vec3
    var maxs: Vec3

    /** AABB(void): the default, empty box. */
    constructor ()
      ensures Value() == EmptyBox()
    {
      mins := Splat(FLT_MAX);
      maxs := Splat(-FLT_MAX);
    }

    /** AABB(min, max): the given corners, stored as they are. */
    constructor FromCorners(min: Vec3, max: Vec3)
      ensures mins == min && maxs == max
    {
      mins := min;
      maxs := max;
    }

    /** The box this object currently holds. */
    function Value(): (b: Box)
      reads this
      ensures b.mins == mins && b.maxs == maxs
    {
      Box(mins, maxs)
    }

    /** expand(p): grow the box so that it holds `p`. */
    method Expand(p: Vec3)
      modifies this
      ensures Value() == Grow(old(Value()), p)
    {
      mins := Min3(mins, p);
      maxs := Max3(maxs, p);
    }

    /**
     * expand(box): expand(box.mins), then expand(box.maxs). When `box` is this
     * very object, the second call reads the maxs the first call already moved.
     */
    method ExpandBox(box: AABB)
      modifies this
      ensures box != this ==> Value() == ExpandByBox(old(Value()), old(box.Value()))
      ensures box == this ==> Value() == Grow(Grow(old(Value()), old(mins)), Max3(old(maxs), old(mins)))
      ensures box == this && LessEq(old(mins), old(maxs)) ==> Value() == old(Value())
    {
      Expand(box.mins);
      Expand(box.maxs);
    }
  }
}
