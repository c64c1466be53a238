/**
 * The slice of Unity.Mathematics the wind field uses: float3/float4/int3/int4
 * vectors and the column-major float4x4, over exact reals and unbounded ints.
 *
 * `math.sqrt` and the gradient of `noise.snoise` are not computable here, so
 * they travel as the two fields of a `MathLib` value; `MathLib.Valid()` is the
 * one law the model relies on (sqrt is the non-negative square root).
 */
module UnityMath {

  datatype Float3 = Float3(x: real, y: real, z: real)

  datatype Float4 = Float4(x: real, y: real, z: real, w: real) {
    /** The `.xyz` swizzle. */
    function xyz(): Float3 { Float3(x, y, z) }

    /** Assignment to the `.xyz` swizzle: `w` is kept. */
    function WithXyz(v: Float3): (r: Float4)
      ensures r.xyz() == v && r.w == w
    {
      Float4(v.x, v.y, v.z, w)
    }
  }

  datatype Int3 = Int3(x: int, y: int, z: int)

  datatype Int4 = Int4(x: int, y: int, z: int, w: int)

  /** A float4x4 stored by columns, as Unity.Mathematics stores it. */
  datatype Float4x4 = Float4x4(c0: Float4, c1: Float4, c2: Float4, c3: Float4)

  const Zero3: Float3 := Float3(0.0, 0.0, 0.0)
  const Zero4: Float4 := Float4(0.0, 0.0, 0.0, 0.0)

  function Add3(a: Float3, b: Float3): Float3 { Float3(a.x + b.x, a.y + b.y, a.z + b.z) }
  function Sub3(a: Float3, b: Float3): Float3 { Float3(a.x - b.x, a.y - b.y, a.z - b.z) }
  function Neg3(a: Float3): Float3 { Float3(-a.x, -a.y, -a.z) }
  function Scale3(k: real, a: Float3): Float3 { Float3(k * a.x, k * a.y, k * a.z) }
  function Div3(a: Float3, k: real): Float3 requires k != 0.0 { Float3(a.x / k, a.y / k, a.z / k) }
  /** A scalar broadcast to all three components (C#'s implicit float -> float3). */
  function Splat3(k: real): Float3 { Float3(k, k, k) }
  function Dot3(a: Float3, b: Float3): real { a.x * b.x + a.y * b.y + a.z * b.z }
  function Cross(a: Float3, b: Float3): Float3 {
    Float3(a.y * b.z - a.z * b.y, a.z * b.x - a.x * b.z, a.x * b.y - a.y * b.x)
  }

  function Add4(a: Float4, b: Float4): Float4 { Float4(a.x + b.x, a.y + b.y, a.z + b.z, a.w + b.w) }
  function Sub4(a: Float4, b: Float4): Float4 { Float4(a.x - b.x, a.y - b.y, a.z - b.z, a.w - b.w) }
  function Scale4(k: real, a: Float4): Float4 { Float4(k * a.x, k * a.y, k * a.z, k * a.w) }
  function Div4(a: Float4, k: real): Float4 requires k != 0.0 { Float4(a.x / k, a.y / k, a.z / k, a.w / k) }
  function Dot4(a: Float4, b: Float4): real { a.x * b.x + a.y * b.y + a.z * b.z + a.w * b.w }

  /** `math.lerp(a, b, t) = a + t * (b - a)`. */
  function Lerp(a: real, b: real, t: real): real { a + t * (b - a) }
  function Lerp3(a: Float3, b: Float3, t: real): Float3 { Add3(a, Scale3(t, Sub3(b, a))) }

  function MinReal(a: real, b: real): real { if a < b then a else b }
  function MaxReal(a: real, b: real): real { if a > b then a else b }

  /** `math.saturate(x) = clamp(x, 0, 1)`. */
  function Saturate(x: real): (r: real)
    ensures 0.0 <= r <= 1.0
    ensures 0.0 <= x <= 1.0 ==> r == x
  {
    MaxReal(0.0, MinReal(1.0, x))
  }

  /** `math.clamp(x, a, b) = max(a, min(b, x))` on ints. */
  function ClampInt(x: int, a: int, b: int): (r: int)
    ensures a <= b ==> a <= r <= b
    ensures a <= x <= b ==> r == x
  {
    var m := if b < x then b else x;
    if a > m then a else m
  }

  /** `math.all(v)`: every component is nonzero. */
  predicate All3(v: Float3) { v.x != 0.0 && v.y != 0.0 && v.z != 0.0 }

  /** `math.transform(m, p)`: the point `(p, 1)` multiplied by `m`, then `.xyz`. */
  function Transform(m: Float4x4, p: Float3): Float3 {
    Add3(Add3(Scale3(p.x, m.c0.xyz()), Scale3(p.y, m.c1.xyz())), Add3(Scale3(p.z, m.c2.xyz()), m.c3.xyz()))
  }

  /** The translation column of an affine matrix (`Extension.Position`). */
  function Translation(m: Float4x4): Float3 { m.c3.xyz() }

  /** An int converted to a float, component by component. */
  function ToFloat3(v: Int3): Float3 { Float3(v.x as real, v.y as real, v.z as real) }

  /**
   * The two library calls the core cannot see into: `math.sqrt` and the
   * gradient output of `noise.snoise`.
   */
  datatype MathLib = MathLib(sqrt: real -> real, snoiseGradient: Float3 -> Float3) {

    /** `sqrt` is the non-negative square root on the non-negative reals (zero at zero). */
    ghost predicate Valid() {
      && sqrt(0.0) == 0.0
      && forall x :: 0.0 <= x ==> 0.0 <= sqrt(x) && sqrt(x) * sqrt(x) == x
    }

    /** The gradient `noise.snoise(p, out gradient)` returns through its out parameter. */
    function NoiseGradient(p: Float3): Float3 { snoiseGradient(p) }

    /** `math.length`. */
    function Length3(v: Float3): real { sqrt(Dot3(v, v)) }

    /** `math.distance`. */
    function Distance3(a: Float3, b: Float3): real { Length3(Sub3(a, b)) }

    function Length4(v: Float4): real { sqrt(Dot4(v, v)) }

    /** `math.normalize`; the zero vector, where Unity yields NaN, maps to zero. */
    function Normalize3(v: Float3): Float3 {
      var l := Length3(v);
      if l == 0.0 then Zero3 else Scale3(1.0 / l, v)
    }

    function Normalize4(v: Float4): Float4 {
      var l := Length4(v);
      if l == 0.0 then Zero4 else Scale4(1.0 / l, v)
    }
  }

  lemma ProductPositive(a: real, b: real)
    requires 0.0 < a && 0.0 < b
    ensures 0.0 < a * b
  {
  }

  lemma SquareStrictlyMonotone(s: real, y: real)
    requires 0.0 <= y < s
    ensures y * y < s * s
  {
    ProductPositive(s - y, s + y);
    assert (s - y) * (s + y) == s * s - y * y;
  }

  /** The square root is monotone: `x <= y * y` with `y >= 0` gives `sqrt(x) <= y`. */
  lemma SqrtAtMost(m: MathLib, x: real, y: real)
    requires m.Valid() && 0.0 <= x && 0.0 <= y && x <= y * y
    ensures 0.0 <= m.sqrt(x) <= y
  {
    var s := m.sqrt(x);
    assert 0.0 <= s && s * s == x;
    if s > y {
      SquareStrictlyMonotone(s, y);
    }
  }

  lemma SqrtOfSquare(m: MathLib, y: real)
    requires m.Valid() && 0.0 <= y
    ensures m.sqrt(y * y) == y
  {
    var s := m.sqrt(y * y);
    assert 0.0 <= s && s * s == y * y;
    if s > y {
      SquareStrictlyMonotone(s, y);
    } else if s < y {
      SquareStrictlyMonotone(y, s);
    }
  }
}
