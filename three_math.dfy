/** The few pieces of the three.js library that the gesture core relies on:
    2- and 3-vectors over exact reals, `Vector3.lerp`, `MathUtils.clamp`,
    `Math.max` over three numbers and `Math.PI`. Floating point is not modelled. */
module ThreeMath {

  datatype Vec2 = Vec2(x: real, y: real)

  datatype Vec3 = Vec3(x: real, y: real, z: real)

  /** `Math.PI`, as the shortest decimal of the double it denotes. */
  const PI: real := 3.141592653589793

  function Add(a: Vec3, b: Vec3): Vec3 {
    Vec3(a.x + b.x, a.y + b.y, a.z + b.z)
  }

  /** Squared Euclidean distance between two points of space. */
  function SqDist(a: Vec3, b: Vec3): (d: real)
    ensures d >= 0.0
  {
    (a.x - b.x) * (a.x - b.x) + (a.y - b.y) * (a.y - b.y) + (a.z - b.z) * (a.z - b.z)
  }

  /** `a.lerp(b, t)`: each component moves the fraction `t` of the way from `a` to `b`. */
  function Lerp(a: Vec3, b: Vec3, t: real): (r: Vec3)
    ensures t == 0.0 ==> r == a
    ensures t == 1.0 ==> r == b
    ensures a == b ==> r == b
  {
    Vec3(a.x + (b.x - a.x) * t, a.y + (b.y - a.y) * t, a.z + (b.z - a.z) * t)
  }

  /** One coordinate of a lerp: the gap to the goal is scaled by exactly `1 - t`. */
  lemma LerpGap(a: real, b: real, t: real)
    ensures (a + (b - a) * t - b) * (a + (b - a) * t - b) == (1.0 - t) * (1.0 - t) * ((a - b) * (a - b))
  {
    assert a + (b - a) * t - b == (1.0 - t) * (a - b);
  }

  /** Lerping toward `b` shrinks the distance to `b` by the factor `|1 - t|`
      (the squared distance by `(1 - t)^2`). */
  lemma LerpShrinksDistance(a: Vec3, b: Vec3, t: real)
    ensures SqDist(Lerp(a, b, t), b) == (1.0 - t) * (1.0 - t) * SqDist(a, b)
  {
    LerpGap(a.x, b.x, t);
    LerpGap(a.y, b.y, t);
    LerpGap(a.z, b.z, t);
  }

  /** `THREE.MathUtils.clamp(v, lo, hi)`, which the library computes as
      `Math.max(lo, Math.min(hi, v))`. */
  function Clamp(v: real, lo: real, hi: real): (r: real)
    ensures lo <= hi ==> lo <= r <= hi
    ensures lo <= v <= hi ==> r == v
    ensures r == v || r == lo || r == hi
    ensures v < lo ==> r == lo
    ensures lo <= hi && hi < v ==> r == hi
  {
    Max(lo, Min(hi, v))
  }

  function Min(a: real, b: real): real {
    if a <= b then a else b
  }

  function Max(a: real, b: real): real {
    if a >= b then a else b
  }

  /** `Math.max(a, b, c)`: an upper bound of the three that is one of them. */
  function Max3(a: real, b: real, c: real): (m: real)
    ensures a <= m && b <= m && c <= m
    ensures m == a || m == b || m == c
  {
    Max(a, Max(b, c))
  }

  /** `base` raised to the power `n`. */
  function Power(base: real, n: nat): (p: real)
    ensures 0.0 <= base ==> 0.0 <= p
  {
    if n == 0 then 1.0 else base * Power(base, n - 1)
  }
}
