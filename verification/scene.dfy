/**
 * The light list of a scene (Gamma/Sources/Scene.cpp, Light.hpp): at most
 * MAX_LIGHTS lights, kept sorted by the w component of their vector so that
 * lights of one kind sit together.
 *
 * The source stores owned `Light*` pointers; the model stores the lights as
 * values and records every light the source deletes in a ghost log.
 */
module Scenes {
  import opened Vectors

  /** A light: w == 0 in `vector` means directional, any other w positional. */
  datatype Light = Light(vector: Vec4, emission: Vec3)

  /** Light(void): a positional light at the origin with emission 5 on each channel. */
  function DefaultLight(): (l: Light)
    ensures !IsDirectional(l)
    ensures l.vector == Vec4(0.0, 0.0, 0.0, 1.0) && l.emission == Splat(5.0)
  {
    Light(Vec4(0.0, 0.0, 0.0, 1.0), Splat(5.0))
  }

  predicate IsDirectional(l: Light)
  {
    l.vector.w == 0.0
  }

  /** Ascending by `vector.w`, the order std::sort establishes with `l1.w < l2.w`. */
  predicate SortedByW(ls: seq<Light>)
  {
    forall i, j :: 0 <= i < j < |ls| ==> ls[i].vector.w <= ls[j].vector.w
  }

  /** Every light of `ls` has w at least `w`. */
  predicate AllAtLeast(w: real, ls: seq<Light>)
  {
    forall k :: 0 <= k < |ls| ==> w <= ls[k].vector.w
  }

  /** A lower bound on w survives any rearrangement. */
  lemma {:induction false} AllAtLeastPermutation(w: real, a: seq<Light>, b: seq<Light>)
    requires multiset(a) == multiset(b) && AllAtLeast(w, a)
    ensures AllAtLeast(w, b)
  {
    forall k | 0 <= k < |b|
      ensures w <= b[k].vector.w
    {
      assert b[k] in multiset(a);
    }
  }

  /** A light no heavier than a sorted list can go in front of it. */
  lemma {:induction false} SortedCons(x: Light, ls: seq<Light>)
    requires SortedByW(ls) && AllAtLeast(x.vector.w, ls)
    ensures SortedByW([x] + ls)
  {
  }

  /** `l` placed into the sorted list after every light whose w is not above its own. */
  function InsertByW(l: Light, ls: seq<Light>): (r: seq<Light>)
    requires SortedByW(ls)
    ensures SortedByW(r)
    ensures multiset(r) == multiset(ls) + multiset{l}
    ensures |r| == |ls| + 1
    decreases |ls|
  {
    if ls == [] then [l]
    else if l.vector.w < ls[0].vector.w then
      SortedCons(l, ls);
      [l] + ls
    else
      var rest := InsertByW(l, ls[1..]);
      assert ls == [ls[0]] + ls[1..];
      AllAtLeastPermutation(ls[0].vector.w, ls[1..] + [l], rest);
      SortedCons(ls[0], rest);
      [ls[0]] + rest
  }

  /**
   * A sorted rearrangement of `ls`. It stands for std::sort, which promises
   * only these two things: the result is sorted and holds the same lights.
   */
  function SortByW(ls: seq<Light>): (r: seq<Light>)
    ensures SortedByW(r)
    ensures multiset(r) == multiset(ls)
    ensures |r| == |ls|
    decreases |ls|
  {
    if ls == [] then []
    else
      assert ls == ls[..|ls| - 1] + [ls[|ls| - 1]];
      InsertByW(ls[|ls| - 1], SortByW(ls[..|ls| - 1]))
  }

  /** With no negative w, every directional light comes before every positional one. */
  lemma {:induction false} DirectionalFirst(ls: seq<Light>)
    requires SortedByW(ls)
    requires forall k :: 0 <= k < |ls| ==> ls[k].vector.w >= 0.0
    ensures forall i, j :: 0 <= i < j < |ls| && IsDirectional(ls[j]) ==> IsDirectional(ls[i])
  {
  }

  /** Three lights with w = -1, 0 and 1: positional, directional, positional. */
  function MixedLights(): (ls: seq<Light>)
    ensures |ls| == 3 && !IsDirectional(ls[0]) && IsDirectional(ls[1]) && !IsDirectional(ls[2])
  {
    [Light(Vec4(0.0, 0.0, 0.0, -1.0), Splat(5.0)),
     Light(Vec4(0.0, 0.0, 0.0, 0.0), Splat(5.0)),
     Light(Vec4(0.0, 0.0, 0.0, 1.0), Splat(5.0))]
  }

  /**
   * A negative w, which counts as positional, breaks the grouping by kind:
   * every sorted rearrangement of MixedLights, so whatever std::sort returns,
   * puts a positional light first and the directional one after it.
   */
  lemma {:induction false} NegativeWSplitsKinds(r: seq<Light>)
    requires SortedByW(r) && multiset(r) == multiset(MixedLights())
    ensures |r| == 3
    ensures !IsDirectional(r[0]) && IsDirectional(r[1])
  {
    var ls := MixedLights();
    assert |r| == |multiset(r)| == |multiset(ls)| == 3;
    assert forall x :: x in r ==> x in multiset(ls);
    assert ls[0] in multiset(r);
    assert ls[1] in multiset(r);
    assert ls[2] in multiset(r);
    assert r[0] in multiset(ls);
    assert r[1] in multiset(ls);
    assert r[2] in multiset(ls);
  }

  class Scene {
    /** mLights. */
    var lights: seq<Light>
    /** MAX_LIGHTS. */
    var maxLights: nat
    /** Every light the scene has deleted, in the order it deleted them. */
    ghost var deleted: seq<Light>

    ghost predicate Valid()
      reads this
    {
      |lights| <= maxLights && SortedByW(lights)
    }

    /** An empty scene with capacity `maxLights`. */
    constructor (maxLights: nat)
      ensures lights == [] && this.maxLights == maxLights && deleted == []
      ensures Valid()
    {
      lights := [];
      this.maxLights := maxLights;
      deleted := [];
    }

    /**
     * setMaxLights(max): the capacity becomes `max`; a longer list loses
     * (and deletes) its lights from index `max` on.
     */
    method SetMaxLights(max: nat)
      modifies this
      ensures maxLights == max
      ensures |old(lights)| <= max ==> lights == old(lights) && deleted == old(deleted)
      ensures |old(lights)| > max ==> lights == old(lights)[..max]
      ensures |old(lights)| > max ==> deleted == old(deleted) + old(lights)[max..]
      ensures |lights| <= maxLights
      ensures old(SortedByW(lights)) ==> Valid()
    {
      maxLights := max;
      if |lights| > maxLights {
        var i := maxLights;
        while i < |lights|
          invariant maxLights <= i <= |lights|
          invariant lights == old(lights) && maxLights == max
          invariant deleted == old(deleted) + lights[maxLights..i]
        {
          deleted := deleted + [lights[i]];
          i := i + 1;
        }
        lights := lights[..maxLights];
      }
    }

    /**
     * addLight(l): a full list is left as it is; otherwise `l` joins the list
     * and the list is sorted again by w.
     */
    method AddLight(l: Light)
      modifies this
      ensures maxLights == old(maxLights) && deleted == old(deleted)
      ensures |old(lights)| >= maxLights ==> lights == old(lights)
      ensures |old(lights)| < maxLights ==> |lights| == |old(lights)| + 1
      ensures |old(lights)| < maxLights ==> multiset(lights) == multiset(old(lights)) + multiset{l}
      ensures |old(lights)| < maxLights ==> SortedByW(lights)
      ensures old(Valid()) ==> Valid()
    {
      if |lights| >= maxLights {
        return;
      }
      lights := lights + [l];
      lights := SortByW(lights);
    }

    /** clearLights(): every light is deleted and the list is emptied. */
    method ClearLights()
      modifies this
      ensures lights == [] && maxLights == old(maxLights)
      ensures deleted == old(deleted) + old(lights)
      ensures Valid()
    {
      var i := 0;
      while i < |lights|
        invariant i <= |lights|
        invariant lights == old(lights) && maxLights == old(maxLights)
        invariant deleted == old(deleted) + lights[..i]
      {
        deleted := deleted + [lights[i]];
        i := i + 1;
      }
      lights := [];
    }
  }
}
