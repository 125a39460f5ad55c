/**
 * The parts of glm's vec3 / vec4 the core uses: component-wise min and max.
 * Components are reals; min and max pick one of their arguments, so they are
 * exact for floats as well (NaN is not modelled).
 */
module Vectors {

  datatype Vec3 = Vec3(x: real, y: real, z: real)

  datatype Vec4 = Vec4(x: real, y: real, z: real, w: real)

  /** A vec3 with all three components equal to `s` (glm's scalar constructor). */
  function Splat(s: real): (v: Vec3)
    ensures v.x == s && v.y == s && v.z == s
  {
    Vec3(s, s, s)
  }

  /** glm::min on scalars: `y < x ? y : x`. */
  function MinR(x: real, y: real): (r: real)
    ensures r <= x && r <= y
    ensures r == x || r == y
  {
    if y < x then y else x
  }

  /** glm::max on scalars: `x < y ? y : x`. */
  function MaxR(x: real, y: real): (r: real)
    ensures r >= x && r >= y
    ensures r == x || r == y
  {
    if x < y then y else x
  }

  /** Component-wise `a <= b`. */
  predicate LessEq(a: Vec3, b: Vec3)
  {
    a.x <= b.x && a.y <= b.y && a.z <= b.z
  }

  /** glm::min on vec3: component by component. */
  function Min3(a: Vec3, b: Vec3): (r: Vec3)
    ensures LessEq(r, a) && LessEq(r, b)
    ensures forall v :: LessEq(v, a) && LessEq(v, b) ==> LessEq(v, r)
  {
    Vec3(MinR(a.x, b.x), MinR(a.y, b.y), MinR(a.z, b.z))
  }

  /** glm::max on vec3: component by component. */
  function Max3(a: Vec3, b: Vec3): (r: Vec3)
    ensures LessEq(a, r) && LessEq(b, r)
    ensures forall v :: LessEq(a, v) && LessEq(b, v) ==> LessEq(r, v)
  {
    Vec3(MaxR(a.x, b.x), MaxR(a.y, b.y), MaxR(a.z, b.z))
  }

  lemma {:induction false} Min3Commutes(a: Vec3, b: Vec3)
    ensures Min3(a, b) == Min3(b, a)
  {
  }

  lemma {:induction false} Max3Commutes(a: Vec3, b: Vec3)
    ensures Max3(a, b) == Max3(b, a)
  {
  }

  lemma {:induction false} Min3Associates(a: Vec3, b: Vec3, c: Vec3)
    ensures Min3(Min3(a, b), c) == Min3(a, Min3(b, c))
  {
  }

  lemma {:induction false} Max3Associates(a: Vec3, b: Vec3, c: Vec3)
    ensures Max3(Max3(a, b), c) == Max3(a, Max3(b, c))
  {
  }
}
