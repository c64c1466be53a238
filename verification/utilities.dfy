/**
 * Grid addressing and containment tests (Runtime/Utilities/Utilities.cs).
 *
 * The linear index of cell (x, y, z) in a grid of density (dx, dy, dz) is
 * `x + y*dx + z*dx*dy`: x varies fastest. Every reader and writer of the voxel
 * array uses this law.
 */
module Utilities {
  import opened UnityMath

  /** C#'s `/` on ints truncates toward zero (Dafny's is Euclidean). */
  function CsDiv(a: int, b: int): int
    requires b != 0
  {
    var q := (if a < 0 then -a else a) / (if b < 0 then -b else b);
    if (a < 0) != (b < 0) then -q else q
  }

  /** C#'s `%` on ints: the remainder takes the sign of the dividend. */
  function CsRem(a: int, b: int): int
    requires b != 0
  {
    a - b * CsDiv(a, b)
  }

  /** On a non-negative dividend and a positive divisor C# and Dafny agree. */
  lemma CsDivModNatural(a: int, b: int)
    requires 0 <= a && 0 < b
    ensures CsDiv(a, b) == a / b && CsRem(a, b) == a % b
  {
  }

  /** Cell coordinates inside a grid of the given density. */
  predicate InBounds(p: Int3, d: Int3) {
    0 <= p.x < d.x && 0 <= p.y < d.y && 0 <= p.z < d.z
  }

  function CellCount(d: Int3): int { d.x * d.y * d.z }

  /** Decodes a linear index into cell coordinates (x fastest). */
  function GetPositionIndex(index: int, d: Int3): Int3
    requires d.x != 0 && d.y != 0
  {
    assert d.x * d.y != 0 by { NonZeroProduct(d.x, d.y); }
    Int3(CsRem(index, d.x), CsRem(CsDiv(index, d.x), d.y), CsDiv(index, d.x * d.y))
  }

  /** Encodes cell coordinates as a linear index (x fastest). */
  function GetIndex(p: Int3, d: Int3): int {
    p.x + p.y * d.x + p.z * d.x * d.y
  }

  lemma ProductPositiveInt(a: int, b: int)
    requires 0 < a && 0 < b
    ensures 0 < a * b
  {
  }

  lemma ProductNonNegative(a: int, b: int)
    requires 0 <= a && 0 <= b
    ensures 0 <= a * b
  {
    if a > 0 && b > 0 {
      ProductPositiveInt(a, b);
    }
  }

  lemma MulAtLeast(k: int, b: int)
    requires 1 <= k && 0 < b
    ensures b <= k * b
  {
    ProductNonNegative(k - 1, b);
    assert (k - 1) * b == k * b - b;
  }

  lemma NonZeroProduct(a: int, b: int)
    requires a != 0 && b != 0
    ensures a * b != 0
  {
    var a' := if a < 0 then -a else a;
    var b' := if b < 0 then -b else b;
    ProductPositiveInt(a', b');
    assert a' * b' == a * b || a' * b' == -(a * b);
  }

  /** Division and remainder by a positive number are fixed by any quotient-remainder form. */
  lemma DivModUnique(i: int, b: int, q: int, r: int)
    requires 0 < b && 0 <= r < b && i == q * b + r
    ensures i / b == q && i % b == r
  {
    var q' := i / b;
    var r' := i % b;
    assert i == q' * b + r';
    assert (q' - q) * b == r - r';
    if q' > q {
      MulAtLeast(q' - q, b);
    } else if q' < q {
      MulAtLeast(q - q', b);
    }
  }

  /** `r2 * a + r` stays below `a * b` when `r2 < b` and `r < a`. */
  lemma MixedRadixBound(r2: int, r: int, a: int, b: int)
    requires 0 <= r2 < b && 0 <= r < a
    ensures 0 <= r2 * a + r < a * b
  {
    ProductNonNegative(r2, a);
    ProductNonNegative(b - 1 - r2, a);
    assert (b - 1 - r2) * a == b * a - a - r2 * a;
  }

  /** Nested division: `(i / a) / b == i / (a * b)`. */
  lemma NestedDivision(i: int, a: int, b: int)
    requires 0 <= i && 0 < a && 0 < b
    ensures i / (a * b) == (i / a) / b
  {
    var q := i / a;
    var r := i % a;
    var q2 := q / b;
    var r2 := q % b;
    assert q == q2 * b + r2;
    assert i == q * a + r;
    assert q * a == q2 * (a * b) + r2 * a;
    MixedRadixBound(r2, r, a, b);
    ProductPositiveInt(a, b);
    DivModUnique(i, a * b, q2, r2 * a + r);
  }

  /** The quotient of a non-negative number by a positive one is non-negative. */
  lemma QuotientNonNegative(i: int, b: int)
    requires 0 <= i && 0 < b
    ensures 0 <= i / b
  {
    var q := i / b;
    assert i == q * b + i % b;
    if q < 0 {
      MulAtLeast(-q, b);
    }
  }

  /** The plain-integer core of the addressing law: decode then encode. */
  lemma MixedRadixRoundTrip(i: int, a: int, b: int)
    requires 0 <= i && 0 < a && 0 < b
    ensures i % a + ((i / a) % b) * a + ((i / a) / b) * a * b == i
  {
    var q := i / a;
    assert i == q * a + i % a;
    assert q == (q / b) * b + q % b;
    assert q * a == (q / b) * a * b + (q % b) * a;
  }

  /**
   * For a non-negative index the decoded coordinates satisfy 0 <= x < dx,
   * 0 <= y < dy and 0 <= z, and re-encoding gives the index back.
   */
  lemma PositionIndexDecodes(i: int, d: Int3)
    requires 0 <= i && 0 < d.x && 0 < d.y
    ensures var p := GetPositionIndex(i, d);
      && p == Int3(i % d.x, (i / d.x) % d.y, (i / d.x) / d.y)
      && 0 <= p.x < d.x && 0 <= p.y < d.y && 0 <= p.z
      && GetIndex(p, d) == i
  {
    PositionIndexIsEuclidean(i, d);
    var q := i / d.x;
    QuotientNonNegative(i, d.x);
    QuotientNonNegative(q, d.y);
    var x, y, z := i % d.x, q % d.y, q / d.y;
    assert GetPositionIndex(i, d) == Int3(x, y, z);
    assert 0 <= x < d.x && 0 <= y < d.y && 0 <= z;
    MixedRadixRoundTrip(i, d.x, d.y);
    assert x + y * d.x + z * d.x * d.y == i;
  }

  lemma PositionIndexIsEuclidean(i: int, d: Int3)
    requires 0 <= i && 0 < d.x && 0 < d.y
    ensures GetPositionIndex(i, d) == Int3(i % d.x, (i / d.x) % d.y, (i / d.x) / d.y)
  {
    var k := d.x * d.y;
    ProductPositiveInt(d.x, d.y);
    DecodedX(i, d);
    DecodedY(i, d);
    DecodedZ(i, d, k);
    NestedDivision(i, d.x, d.y);
  }

  lemma DecodedX(i: int, d: Int3)
    requires 0 <= i && 0 < d.x && 0 < d.y
    ensures GetPositionIndex(i, d).x == i % d.x
  {
    CsDivModNatural(i, d.x);
  }

  lemma DecodedY(i: int, d: Int3)
    requires 0 <= i && 0 < d.x && 0 < d.y
    ensures GetPositionIndex(i, d).y == (i / d.x) % d.y
  {
    var q := i / d.x;
    QuotientNonNegative(i, d.x);
    CsDivModNatural(i, d.x);
    assert CsDiv(i, d.x) == q;
    CsDivModNatural(q, d.y);
    assert CsRem(q, d.y) == q % d.y;
  }

  lemma DecodedZ(i: int, d: Int3, k: int)
    requires 0 <= i && 0 < d.x && 0 < d.y && k == d.x * d.y && 0 < k
    ensures GetPositionIndex(i, d).z == i / k
  {
    CsDivModNatural(i, k);
  }

  /** Every linear index of the grid decodes to a cell inside the grid. */
  lemma PositionIndexInBounds(i: int, d: Int3)
    requires 0 < d.x && 0 < d.y && 0 < d.z
    requires 0 <= i < CellCount(d)
    ensures InBounds(GetPositionIndex(i, d), d)
  {
    PositionIndexDecodes(i, d);
    var p := GetPositionIndex(i, d);
    ProductPositiveInt(d.x, d.y);
    NestedDivision(i, d.x, d.y);
    assert p.z == i / (d.x * d.y);
    assert CellCount(d) == d.z * (d.x * d.y);
    if p.z >= d.z {
      MulAtLeastBoth(d.z, p.z, d.x * d.y);
    }
  }

  lemma MulAtLeastBoth(k: int, k': int, b: int)
    requires 0 <= k <= k' && 0 < b
    ensures k * b <= k' * b
  {
    ProductNonNegative(k' - k, b);
    assert (k' - k) * b == k' * b - k * b;
  }

  /** Decoding then encoding is the identity on every non-negative index. */
  lemma IndexRoundTrip(i: int, d: Int3)
    requires 0 < d.x && 0 < d.y
    requires 0 <= i
    ensures GetIndex(GetPositionIndex(i, d), d) == i
  {
    PositionIndexDecodes(i, d);
  }

  /** Encoding an in-bounds cell gives a linear index of the grid. */
  lemma IndexInRange(p: Int3, d: Int3)
    requires InBounds(p, d)
    ensures 0 <= GetIndex(p, d) < CellCount(d)
  {
    MixedRadixBound(p.y, p.x, d.x, d.y);
    var low := p.x + p.y * d.x;
    ProductPositiveInt(d.x, d.y);
    MixedRadixBound(p.z, low, d.x * d.y, d.z);
    assert GetIndex(p, d) == p.z * (d.x * d.y) + low;
    assert CellCount(d) == (d.x * d.y) * d.z;
  }

  /** Encoding then decoding is the identity on every in-bounds cell. */
  lemma PositionRoundTrip(p: Int3, d: Int3)
    requires InBounds(p, d)
    ensures GetPositionIndex(GetIndex(p, d), d) == p
  {
    var i := GetIndex(p, d);
    IndexInRange(p, d);
    PositionIndexIsEuclidean(i, d);
    EncodedQuotient(p, d);
    DivModUnique(p.y + p.z * d.y, d.y, p.z, p.y);
  }

  /** Dividing an encoded index by `dx` strips the x coordinate. */
  lemma EncodedQuotient(p: Int3, d: Int3)
    requires InBounds(p, d)
    ensures GetIndex(p, d) / d.x == p.y + p.z * d.y && GetIndex(p, d) % d.x == p.x
  {
    assert GetIndex(p, d) == (p.y + p.z * d.y) * d.x + p.x;
    DivModUnique(GetIndex(p, d), d.x, p.y + p.z * d.y, p.x);
  }

  /** The outcome of a containment test: the C# return value and its `out linear01`. */
  datatype Containment = Containment(inside: bool, linear01: real)

  /**
   * `IsInsideSphere`: inside exactly when the distance to the centre is at most
   * the radius, and then `linear01` is that distance as a fraction of the radius.
   */
  function IsInsideSphere(m: MathLib, voxelPosition: Float3, center: Float3, radius: real): (r: Containment)
    requires radius != 0.0
    ensures r.inside <==> m.Distance3(voxelPosition, center) <= radius
    ensures !r.inside ==> r.linear01 == 0.0
    ensures r.inside ==> r.linear01 * radius == m.Distance3(voxelPosition, center)
  {
    SphereTest(m.Length3(Sub3(voxelPosition, center)), radius)
  }

  /** With a true square root, a point inside the sphere has `linear01` in [0, 1] (and the radius is positive). */
  lemma SphereFractionInUnit(m: MathLib, voxelPosition: Float3, center: Float3, radius: real)
    requires m.Valid() && radius != 0.0
    ensures var r := IsInsideSphere(m, voxelPosition, center, radius);
      r.inside ==> 0.0 < radius && 0.0 <= r.linear01 <= 1.0
  {
    DistanceNonNegative(m, voxelPosition, center);
    assert IsInsideSphere(m, voxelPosition, center, radius) == SphereTest(m.Distance3(voxelPosition, center), radius);
  }

  /** With a true square root, distances are non-negative. */
  lemma DistanceNonNegative(m: MathLib, a: Float3, b: Float3)
    requires m.Valid()
    ensures 0.0 <= m.Distance3(a, b)
  {
    DotSelfNonNegative(Sub3(a, b));
  }

  /** The guard of `IsInsideSphere` on the distance to the centre. */
  function SphereTest(distance: real, radius: real): (r: Containment)
    requires radius != 0.0
    ensures r.inside <==> distance <= radius
    ensures !r.inside ==> r.linear01 == 0.0
    ensures r.inside ==> r.linear01 * radius == distance
    ensures 0.0 <= distance && r.inside ==> 0.0 < radius && 0.0 <= r.linear01 <= 1.0
  {
    if distance > radius then
      Containment(false, 0.0)
    else
      assert 0.0 <= distance ==> 0.0 < radius && 0.0 <= distance / radius <= 1.0 by {
        if 0.0 <= distance { FractionInUnit(distance, radius); }
      }
      Containment(true, distance / radius)
  }

  lemma DotSelfNonNegative(v: Float3)
    ensures 0.0 <= Dot3(v, v)
  {
    SquareNonNegative(v.x);
    SquareNonNegative(v.y);
    SquareNonNegative(v.z);
  }

  lemma SquareNonNegative(a: real)
    ensures 0.0 <= a * a
  {
    if a > 0.0 {
      ProductPositive(a, a);
    } else if a < 0.0 {
      ProductPositive(-a, -a);
    }
  }

  /** The centre of a sphere of positive radius is inside, with `linear01 == 0`. */
  lemma SphereCentre(m: MathLib, center: Float3, radius: real)
    requires m.sqrt(0.0) == 0.0 && 0.0 < radius
    ensures IsInsideSphere(m, center, center, radius) == Containment(true, 0.0)
  {
    var distance := m.Length3(Sub3(center, center));
    DistanceToSelf(m, center);
    assert distance == 0.0;
    SphereTestAtCentre(radius);
    assert IsInsideSphere(m, center, center, radius) == SphereTest(distance, radius);
  }

  lemma SphereTestAtCentre(radius: real)
    requires 0.0 < radius
    ensures SphereTest(0.0, radius) == Containment(true, 0.0)
  {
    assert 0.0 / radius == 0.0;
  }

  /** Every point is at distance zero from itself. */
  lemma DistanceToSelf(m: MathLib, p: Float3)
    requires m.sqrt(0.0) == 0.0
    ensures m.Distance3(p, p) == 0.0
  {
    assert Sub3(p, p) == Zero3;
    assert Dot3(Zero3, Zero3) == 0.0;
  }

  /** A point on the sphere is inside, with `linear01 == 1`. */
  lemma SphereBoundary(m: MathLib, p: Float3, center: Float3, radius: real)
    requires 0.0 < radius && m.Distance3(p, center) == radius
    ensures IsInsideSphere(m, p, center, radius) == Containment(true, 1.0)
  {
  }

  /** How far `voxelPosition` lies along the normalised axis from `basePosition`. */
  function CylinderProjection(m: MathLib, voxelPosition: Float3, basePosition: Float3, direction: Float3): real {
    Dot3(Sub3(voxelPosition, basePosition), m.Normalize3(direction))
  }

  /** The distance from `voxelPosition` to the cylinder's axis. */
  function CylinderAxisDistance(m: MathLib, voxelPosition: Float3, basePosition: Float3, direction: Float3): real {
    var n := m.Normalize3(direction);
    var projected := Add3(basePosition, Scale3(CylinderProjection(m, voxelPosition, basePosition, direction), n));
    m.Length3(Sub3(projected, voxelPosition))
  }

  /**
   * The two guards of `IsInsideCylinder` on the projection `proj` and the axis
   * distance `axis`: out past either end, or farther from the axis than the
   * radius interpolated at `proj / height`, is outside.
   */
  function CylinderTest(proj: real, axis: real, lowerRadius: real, upperRadius: real, height: real): (r: Containment)
    requires height != 0.0
    ensures r.inside <==> 0.0 <= proj <= height && 0.0 <= axis <= Lerp(lowerRadius, upperRadius, proj / height)
    ensures !r.inside ==> r.linear01 == 0.0
    ensures r.inside ==> 0.0 < height && r.linear01 * height == proj && 0.0 <= r.linear01 <= 1.0
  {
    if proj < 0.0 || proj > height then
      Containment(false, 0.0)
    else
      var a := proj / height;
      var effectiveRadius := Lerp(lowerRadius, upperRadius, a);
      if axis < 0.0 || axis > effectiveRadius then
        Containment(false, 0.0)
      else
        assert 0.0 < height && 0.0 <= a <= 1.0 by { FractionInUnit(proj, height); }
        Containment(true, a)
  }

  lemma FractionInUnit(p: real, h: real)
    requires 0.0 <= p <= h && h != 0.0
    ensures 0.0 < h && 0.0 <= p / h <= 1.0
  {
  }

  /**
   * `IsInsideCylinder`: inside exactly when the projection on the axis lies in
   * [0, height] and the distance to the axis is within the radius interpolated
   * between `lowerRadius` and `upperRadius` at that height; `linear01` is then
   * the projection as a fraction of the height, in [0, 1].
   */
  function IsInsideCylinder(m: MathLib, voxelPosition: Float3, basePosition: Float3, direction: Float3,
                            lowerRadius: real, upperRadius: real, height: real): (r: Containment)
    requires height != 0.0
    ensures var proj := CylinderProjection(m, voxelPosition, basePosition, direction);
            var axis := CylinderAxisDistance(m, voxelPosition, basePosition, direction);
      && (r.inside <==> 0.0 <= proj <= height && 0.0 <= axis <= Lerp(lowerRadius, upperRadius, proj / height))
      && (!r.inside ==> r.linear01 == 0.0)
      && (r.inside ==> 0.0 < height && r.linear01 * height == proj && 0.0 <= r.linear01 <= 1.0)
  {
    CylinderTest(CylinderProjection(m, voxelPosition, basePosition, direction),
                 CylinderAxisDistance(m, voxelPosition, basePosition, direction),
                 lowerRadius, upperRadius, height)
  }

  /** The base point of a cylinder with a non-negative lower radius is inside, with `linear01 == 0`. */
  lemma CylinderBase(m: MathLib, basePosition: Float3, direction: Float3, lowerRadius: real, upperRadius: real, height: real)
    requires m.sqrt(0.0) == 0.0 && 0.0 < height && 0.0 <= lowerRadius
    ensures IsInsideCylinder(m, basePosition, basePosition, direction, lowerRadius, upperRadius, height) == Containment(true, 0.0)
  {
    var n := m.Normalize3(direction);
    assert Sub3(basePosition, basePosition) == Zero3;
    var proj := CylinderProjection(m, basePosition, basePosition, direction);
    assert proj == 0.0;
    assert Add3(basePosition, Scale3(proj, n)) == basePosition;
    DistanceToSelf(m, basePosition);
    var axis := CylinderAxisDistance(m, basePosition, basePosition, direction);
    assert axis == 0.0;
    CylinderTestAtBase(lowerRadius, upperRadius, height);
  }

  lemma CylinderTestAtBase(lowerRadius: real, upperRadius: real, height: real)
    requires 0.0 < height && 0.0 <= lowerRadius
    ensures CylinderTest(0.0, 0.0, lowerRadius, upperRadius, height) == Containment(true, 0.0)
  {
    assert 0.0 / height == 0.0;
    assert Lerp(lowerRadius, upperRadius, 0.0) == lowerRadius;
  }
}
