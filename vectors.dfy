// Three-dimensional vectors of the simulation. Coordinates are mathematical
// reals: an idealisation of the 32-bit floats of the game, so rounding is not
// modelled. glm::normalize and std::sqrt are library calls; here they are
// function-typed parameters constrained only by the properties stated below.
module Vectors {

  datatype Vec3 = Vec3(x: real, y: real, z: real)

  const Zero := Vec3(0.0, 0.0, 0.0)

  function Add(a: Vec3, b: Vec3): Vec3 {
    Vec3(a.x + b.x, a.y + b.y, a.z + b.z)
  }

  function Sub(a: Vec3, b: Vec3): Vec3 {
    Vec3(a.x - b.x, a.y - b.y, a.z - b.z)
  }

  function Scale(v: Vec3, k: real): Vec3 {
    Vec3(v.x * k, v.y * k, v.z * k)
  }

  function Dot(a: Vec3, b: Vec3): real {
    a.x * b.x + a.y * b.y + a.z * b.z
  }

  function Cross(a: Vec3, b: Vec3): Vec3 {
    Vec3(a.y * b.z - a.z * b.y, a.z * b.x - a.x * b.z, a.x * b.y - a.y * b.x)
  }

  /** Squared Euclidean length; glm::length(v) is its square root. */
  function LengthSq(v: Vec3): real {
    Dot(v, v)
  }

  /** Squared length of the X/Z part (glm::length of a vec2(dx, dz)). */
  function HorizontalLengthSq(v: Vec3): real {
    v.x * v.x + v.z * v.z
  }

  function Abs(r: real): (a: real)
    ensures a >= 0.0 && (a == r || a == -r)
  {
    if r < 0.0 then -r else r
  }

  /** glm::clamp on floats: max(lo, min(v, hi)) for lo <= hi, the only case
      the game uses. Textures.ClampInt is the same rule on ints; Dafny's real
      and int are distinct types, so each has its own. */
  function Clamp(v: real, lo: real, hi: real): (r: real)
    ensures lo <= hi ==> lo <= r <= hi
    ensures lo <= v <= hi ==> r == v
    ensures lo <= hi && v < lo ==> r == lo
    ensures lo <= hi && v > hi ==> r == hi
  {
    if v < lo then lo else if v > hi then hi else v
  }

  /** What glm::normalize promises for a nonzero argument: a vector of unit
      length pointing the same way (parallel, positive projection). */
  ghost predicate IsNormalizer(normalize: Vec3 -> Vec3) {
    forall v :: LengthSq(v) > 0.0 ==>
      LengthSq(normalize(v)) == 1.0 && Cross(v, normalize(v)) == Zero && Dot(v, normalize(v)) > 0.0
  }

  /** What std::sqrt promises: the non-negative square root. */
  ghost predicate IsSqrt(sqrt: real -> real) {
    forall t :: t >= 0.0 ==> sqrt(t) >= 0.0 && sqrt(t) * sqrt(t) == t
  }

  lemma HorizontalLengthSqScale(v: Vec3, k: real)
    ensures HorizontalLengthSq(Scale(v, k)) == HorizontalLengthSq(v) * (k * k)
  {
    assert (v.x * k) * (v.x * k) == (v.x * v.x) * (k * k);
    assert (v.z * k) * (v.z * k) == (v.z * v.z) * (k * k);
  }

  /** The squared length of a f + b r, expanded. */
  lemma LengthSqOfCombination(f: Vec3, r: Vec3, a: real, b: real)
    ensures LengthSq(Add(Scale(f, a), Scale(r, b))) ==
            a * a * LengthSq(f) + 2.0 * a * b * Dot(f, r) + b * b * LengthSq(r)
  {
    var d := Add(Scale(f, a), Scale(r, b));
    assert d.x * d.x == a * a * (f.x * f.x) + 2.0 * a * b * (f.x * r.x) + b * b * (r.x * r.x);
    assert d.y * d.y == a * a * (f.y * f.y) + 2.0 * a * b * (f.y * r.y) + b * b * (r.y * r.y);
    assert d.z * d.z == a * a * (f.z * f.z) + 2.0 * a * b * (f.z * r.z) + b * b * (r.z * r.z);
  }

  lemma SquareLess(a: real, b: real)
    requires a >= 0.0 && b >= 0.0
    ensures a < b <==> a * a < b * b
  {
    if a < b {
      assert (b - a) * a >= 0.0;
      assert (b - a) * b > 0.0;
      assert b * b - a * a == (b - a) * a + (b - a) * b;
    } else {
      assert (a - b) * a >= 0.0;
      assert (a - b) * b >= 0.0;
      assert a * a - b * b == (a - b) * a + (a - b) * b;
    }
  }

  /** A comparison of a length against a non-negative bound is the same
      comparison of the squared length against the squared bound. This is why
      the model compares squared lengths where the game compares lengths. */
  lemma SqrtCompare(sqrt: real -> real, t: real, bound: real)
    requires IsSqrt(sqrt)
    requires t >= 0.0 && bound >= 0.0
    ensures sqrt(t) < bound <==> t < bound * bound
    ensures sqrt(t) > bound <==> t > bound * bound
  {
    var r := sqrt(t);
    assert r >= 0.0 && r * r == t;
    SquareLess(r, bound);
    SquareLess(bound, r);
  }

  /** A nonzero horizontal vector (y == 0) normalizes to a horizontal vector. */
  lemma NormalizeHorizontal(normalize: Vec3 -> Vec3, v: Vec3)
    requires IsNormalizer(normalize)
    requires LengthSq(v) > 0.0
    ensures v.y == 0.0 ==> normalize(v).y == 0.0 && HorizontalLengthSq(normalize(v)) == 1.0
  {
    var n := normalize(v);
    if v.y != 0.0 { return; }
    assert Cross(v, n) == Zero;
    assert v.x * n.y == 0.0;
    assert v.z * n.y == 0.0;
    if v.x == 0.0 {
      assert v.z != 0.0;
    }
  }
}
