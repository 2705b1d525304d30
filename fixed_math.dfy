// Fixed-point vectors and the integer math utilities of the gravity code.
//
// Raw fixed-point values are plain integers: a Q12 value v stands for
// v / 0x1000 and a Q24 value for v / 0x100_0000.  The numeric library the
// code calls into (fixed-point products and quotients, vector lengths,
// normalisation, arctangent, square root, smooth step, rotation about a
// pivot) is not part of this model; its routines are the fields of a `Lib`
// value that every operation needing them receives as a parameter.

module FixedMath {

  /** 16-bit and 32-bit two's complement ranges. */
  type S16 = x: int | -0x8000 <= x < 0x8000
  type S32 = x: int | -0x8000_0000 <= x < 0x8000_0000

  /** One unit in Q12 and in Q24. */
  const ONE12: int := 0x1000
  const ONE24: int := 0x100_0000

  /** Angles: 0x10000 units per turn, so 1 degree is 182 and 180 degrees is 0x8000. */
  const DEG1: int := 182
  const DEG90: int := 0x4000
  const DEG180: int := 0x8000

  /** Conversion of an int result to `short` (two's complement wrap-around). */
  function WrapS16(x: int): (r: S16)
    ensures (r - x) % 0x10000 == 0
    ensures -0x8000 <= x < 0x8000 ==> r == x
  {
    (x + 0x8000) % 0x10000 - 0x8000
  }

  /** 32-bit wrap-around of an int result. */
  function Wrap32(x: int): (r: S32)
    ensures (r - x) % 0x1_0000_0000 == 0
    ensures -0x8000_0000 <= x < 0x8000_0000 ==> r == x
  {
    (x + 0x8000_0000) % 0x1_0000_0000 - 0x8000_0000
  }

  function Min(a: int, b: int): (r: int)
    ensures r <= a && r <= b && (r == a || r == b)
  {
    if a < b then a else b
  }

  function Abs(a: int): (r: int)
    ensures r >= 0 && (r == a || r == -a)
  {
    if a < 0 then -a else a
  }

  datatype Vec3 = Vec3(x: int, y: int, z: int)

  /** A 3x3 matrix given by its columns. */
  datatype Mat3 = Mat3(c0: Vec3, c1: Vec3, c2: Vec3)

  function Zero(): Vec3 { Vec3(0, 0, 0) }
  function Add(a: Vec3, b: Vec3): Vec3 { Vec3(a.x + b.x, a.y + b.y, a.z + b.z) }
  function Sub(a: Vec3, b: Vec3): Vec3 { Vec3(a.x - b.x, a.y - b.y, a.z - b.z) }
  function Neg(a: Vec3): Vec3 { Vec3(-a.x, -a.y, -a.z) }

  /** The identity matrix in Q12. */
  function Identity(): Mat3
  {
    Mat3(Vec3(ONE12, 0, 0), Vec3(0, ONE12, 0), Vec3(0, 0, ONE12))
  }

  function Transpose(m: Mat3): Mat3
  {
    Mat3(Vec3(m.c0.x, m.c1.x, m.c2.x), Vec3(m.c0.y, m.c1.y, m.c2.y), Vec3(m.c0.z, m.c1.z, m.c2.z))
  }

  /** Exact integer dot product of raw components (no rescaling). */
  function IntDot(a: Vec3, b: Vec3): int { a.x * b.x + a.y * b.y + a.z * b.z }

  /** The numeric library routines the gravity code relies on. */
  datatype Lib = Lib(
    mul12: (int, int) -> int,            // Fix12 product
    mul24: (int, int) -> int,            // Fix24 product
    div12: (int, int) -> int,            // Fix12 quotient
    divQ24: (int, int) -> int,           // DivQ24
    len: Vec3 -> int,                    // LenVec3 (raw components)
    horzLen: Vec3 -> int,                // Vec3_HorzLen
    normalize12: Vec3 -> Vec3,           // Vector3::Normalized (Q12)
    atan2: (int, int) -> int,            // Atan2(y, x)
    sqrt12: int -> int,                  // Fix12 Sqrt
    sqrt24: int -> int,                  // Fix24 Sqrt
    smoothStep: int -> int,              // SmoothStep (Q12)
    rotateAround: (Vec3, Vec3, Mat3) -> Vec3,       // RotateAround(p, pivot, m)
    sphericalForward: (Vec3, Vec3, Vec3) -> Vec3,   // SphericalForwardField(xAxis, yAxis, up)
    mulMat: (Mat3, Mat3) -> Mat3         // Matrix3x3 product
  )

  /**
   * The only facts about a fixed-point product the proofs use: it is
   * commutative, and a factor of 0, 1 or -1 (in the product's own scale)
   * is exact.  Every rescaling of the exact product by a power of two has
   * these properties.
   */
  ghost predicate FixProduct(mul: (int, int) -> int, one: int)
  {
    && (forall a, b :: mul(a, b) == mul(b, a))
    && (forall a :: mul(0, a) == 0)
    && (forall a :: mul(one, a) == a)
    && (forall a, b :: a == -one ==> mul(a, b) == -b)
  }

  /** Lengths are never negative and the zero vector has length 0. */
  ghost predicate LengthLaws(lib: Lib)
  {
    && (forall v :: lib.len(v) >= 0)
    && (forall v :: lib.horzLen(v) >= 0)
    && lib.len(Zero()) == 0
    && lib.horzLen(Zero()) == 0
  }

  /** Rotating the pivot about itself leaves it where it is. */
  ghost predicate RotationLaws(lib: Lib)
  {
    forall p, m :: lib.rotateAround(p, p, m) == p
  }

  ghost predicate Laws(lib: Lib)
  {
    FixProduct(lib.mul12, ONE12) && FixProduct(lib.mul24, ONE24) && LengthLaws(lib) && RotationLaws(lib)
  }

  function Len(lib: Lib, v: Vec3): int { lib.len(v) }

  /** Vector3::Dist: the length of the difference. */
  function Dist(lib: Lib, a: Vec3, b: Vec3): int { lib.len(Sub(a, b)) }

  /** Vector3::HorzDist: the horizontal length of the difference. */
  function HorzDist(lib: Lib, a: Vec3, b: Vec3): int { lib.horzLen(Sub(a, b)) }

  // ---------------------------------------------------------------------
  // Q24 <-> Q12

  /**
   * Fix24 -> Fix12: add half a Q12 unit and shift right by 12 (the sum is
   * computed in 32 bits).  Away from overflow this rounds to the nearest
   * Q12 value, halves rounding up.
   */
  function Q24ToQ12(v: int): (r: int)
    ensures -0x8000_0000 <= v + 0x800 < 0x8000_0000 ==>
              r * 0x1000 - 0x800 <= v < r * 0x1000 + 0x800
  {
    Wrap32(v + 0x800) / 0x1000
  }

  /** Q12 -> Q24 as a 32-bit left shift by 12. */
  function Q12ToQ24(v: int): S32
  {
    Wrap32(v * 0x1000)
  }

  /** Vector3_Q24::ToQ12, component by component. */
  function ToQ12(v: Vec3): Vec3 { Vec3(Q24ToQ12(v.x), Q24ToQ12(v.y), Q24ToQ12(v.z)) }

  /** The Vector3_Q24 constructor from a Q12 vector (`data(v << 12)`). */
  function FromQ12(v: Vec3): Vec3 { Vec3(Q12ToQ24(v.x), Q12ToQ24(v.y), Q12ToQ24(v.z)) }

  /** A Q12 value survives the trip to Q24 and back unless the shift overflows. */
  lemma Q12RoundTrip(v: int)
    requires -0x80000 <= v < 0x80000
    ensures Q24ToQ12(Q12ToQ24(v)) == v
  {
    assert Q12ToQ24(v) == v * 0x1000;
  }

  predicate FitsQ24(v: Vec3)
  {
    -0x80000 <= v.x < 0x80000 && -0x80000 <= v.y < 0x80000 && -0x80000 <= v.z < 0x80000
  }

  lemma VectorRoundTrip(v: Vec3)
    requires FitsQ24(v)
    ensures ToQ12(FromQ12(v)) == v
  {
    Q12RoundTrip(v.x);
    Q12RoundTrip(v.y);
    Q12RoundTrip(v.z);
  }

  // ---------------------------------------------------------------------
  // Q24 vector algebra (Vector3_Q24 static helpers)

  /** Vector3_Q24::CalculateDot: the sum of the three Q24 products. */
  function Dot24(lib: Lib, a: Vec3, b: Vec3): int
  {
    lib.mul24(a.x, b.x) + lib.mul24(a.y, b.y) + lib.mul24(a.z, b.z)
  }

  /** Vector3_Q24::CalculateCross. */
  function Cross24(lib: Lib, a: Vec3, b: Vec3): Vec3
  {
    Vec3(lib.mul24(a.y, b.z) - lib.mul24(a.z, b.y),
         lib.mul24(a.z, b.x) - lib.mul24(a.x, b.z),
         lib.mul24(a.x, b.y) - lib.mul24(a.y, b.x))
  }

  /** Vector3_Q24::Multiply: each component times a Q24 scalar. */
  function Scale24(lib: Lib, v: Vec3, s: int): Vec3
  {
    Vec3(lib.mul24(v.x, s), lib.mul24(v.y, s), lib.mul24(v.z, s))
  }

  /** Vector3_Q24::CalculateNormalized: each component divided by the length. */
  function Normalized24(lib: Lib, v: Vec3): Vec3
  {
    var mag := lib.len(v);
    Vec3(lib.divQ24(v.x, mag), lib.divQ24(v.y, mag), lib.divQ24(v.z, mag))
  }

  /** Vector3_Q24::AngleTo: atan2(|a x b|, a . b) as an unsigned 16-bit angle. */
  function AngleTo(lib: Lib, a: Vec3, b: Vec3): (r: int)
    ensures 0 <= r < 0x10000
  {
    lib.atan2(lib.len(Cross24(lib, a, b)), Dot24(lib, a, b)) % 0x10000
  }

  lemma DotSymmetric(lib: Lib, a: Vec3, b: Vec3)
    requires FixProduct(lib.mul24, ONE24)
    ensures Dot24(lib, a, b) == Dot24(lib, b, a)
  {
    assert lib.mul24(a.x, b.x) == lib.mul24(b.x, a.x);
    assert lib.mul24(a.y, b.y) == lib.mul24(b.y, a.y);
    assert lib.mul24(a.z, b.z) == lib.mul24(b.z, a.z);
  }

  lemma CrossAntiSymmetric(lib: Lib, a: Vec3, b: Vec3)
    requires FixProduct(lib.mul24, ONE24)
    ensures Cross24(lib, a, b) == Neg(Cross24(lib, b, a))
  {
    assert lib.mul24(a.y, b.z) == lib.mul24(b.z, a.y);
    assert lib.mul24(a.z, b.y) == lib.mul24(b.y, a.z);
    assert lib.mul24(a.z, b.x) == lib.mul24(b.x, a.z);
    assert lib.mul24(a.x, b.z) == lib.mul24(b.z, a.x);
    assert lib.mul24(a.x, b.y) == lib.mul24(b.y, a.x);
    assert lib.mul24(a.y, b.x) == lib.mul24(b.x, a.y);
  }

  lemma CrossSelfZero(lib: Lib, a: Vec3)
    requires FixProduct(lib.mul24, ONE24)
    ensures Cross24(lib, a, a) == Zero()
  {
    CrossAntiSymmetric(lib, a, a);
  }

  // ---------------------------------------------------------------------
  // Q12 vector algebra (Vector3 library)

  function Dot12(lib: Lib, a: Vec3, b: Vec3): int
  {
    lib.mul12(a.x, b.x) + lib.mul12(a.y, b.y) + lib.mul12(a.z, b.z)
  }

  function Cross12(lib: Lib, a: Vec3, b: Vec3): Vec3
  {
    Vec3(lib.mul12(a.y, b.z) - lib.mul12(a.z, b.y),
         lib.mul12(a.z, b.x) - lib.mul12(a.x, b.z),
         lib.mul12(a.x, b.y) - lib.mul12(a.y, b.x))
  }

  function Scale12(lib: Lib, v: Vec3, s: int): Vec3
  {
    Vec3(lib.mul12(v.x, s), lib.mul12(v.y, s), lib.mul12(v.z, s))
  }

  function NormalizedTwice12(lib: Lib, v: Vec3): Vec3
  {
    lib.normalize12(lib.normalize12(v))
  }

  /**
   * SphericalMatrixField: the forward axis from SphericalForwardField, the
   * side axis as the Q24 cross product of up and forward, and up itself,
   * each normalised twice.
   */
  function SphericalMatrixField(lib: Lib, xAxis: Vec3, yAxis: Vec3, up: Vec3): (m: Mat3)
    ensures m.c1 == NormalizedTwice12(lib, up)
  {
    var fwd := lib.sphericalForward(xAxis, yAxis, up);
    Mat3(NormalizedTwice12(lib, Cross24(lib, up, fwd)), NormalizedTwice12(lib, up), NormalizedTwice12(lib, fwd))
  }

  // ---------------------------------------------------------------------
  // Angles

  /** GetAngleOffset: the angle of the new x and z axes as seen from the old z axis. */
  function GetAngleOffset(lib: Lib, oldZ: Vec3, newX: Vec3, newZ: Vec3): S16
  {
    WrapS16(lib.atan2(Dot12(lib, newX, oldZ), Dot12(lib, newZ, oldZ)))
  }

  /**
   * ConvertAngle: the angle plus the offset between the two bases, in
   * 16-bit arithmetic.  The source updates the angle in place; here the
   * new angle is the result.
   */
  function ConvertAngle(lib: Lib, angle: S16, from: Mat3, to: Mat3): (r: S16)
    ensures (r - angle - GetAngleOffset(lib, from.c2, to.c0, to.c2)) % 0x10000 == 0
  {
    WrapS16(angle + GetAngleOffset(lib, from.c2, to.c0, to.c2))
  }

  /** The cosine polynomial on a quarter turn, x = b << 10 in Q24. */
  function CosPoly(lib: Lib, b: int): int
  {
    var x := b * 0x400;
    ONE24 - lib.mul24(lib.mul24(0x141ff5e - lib.mul24(lib.mul24(0x2be0ed, x) + 0x161e72, x), x), x)
  }

  /**
   * CosQ24: fold the angle onto [0, 90 degrees] (negating past 90 degrees)
   * and evaluate the polynomial.
   */
  function CosQ24(lib: Lib, a: S16): int
  {
    var b := Abs(a);
    if b > 0x4000 then -CosPoly(lib, 0x8000 - b) else CosPoly(lib, b)
  }

  /** SinQ24(a) == CosQ24(90 degrees - a), the difference taken as a short. */
  function SinQ24(lib: Lib, a: S16): int
  {
    CosQ24(lib, WrapS16(DEG90 - a))
  }

  lemma CosZero(lib: Lib)
    requires FixProduct(lib.mul24, ONE24)
    ensures CosQ24(lib, 0) == ONE24
  {
    var k := lib.mul24(0x2be0ed, 0) + 0x161e72;
    assert lib.mul24(k, 0) == lib.mul24(0, k) == 0;
    assert lib.mul24(0x141ff5e, 0) == lib.mul24(0, 0x141ff5e) == 0;
    assert lib.mul24(0, 0) == 0;
  }

  /** Cosine is even: CosQ24(a) == CosQ24(-a) wherever -a is still a short. */
  lemma CosEven(lib: Lib, a: S16)
    requires a != -0x8000
    ensures CosQ24(lib, a) == CosQ24(lib, -a)
  {
  }

  /** Past a quarter turn the result is the negated cosine of the supplement. */
  lemma CosSupplement(lib: Lib, a: S16)
    requires 0x4000 < a <= 0x7fff
    ensures CosQ24(lib, a) == -CosQ24(lib, 0x8000 - a)
  {
  }

  // ---------------------------------------------------------------------
  // Orthonormal vector

  /**
   * The candidate CalculateSomeOrthonormalVec builds before normalising:
   * it zeroes the component whose square is smallest (checking x, then y,
   * then z) and swaps and negates the other two.
   */
  function OrthoCandidate(v: Vec3): (c: Vec3)
    ensures IntDot(c, v) == 0
    ensures c == Vec3(0, v.z, -v.y) || c == Vec3(-v.z, 0, v.x) || c == Vec3(v.y, -v.x, 0)
  {
    var xx := v.x * v.x;
    var yy := v.y * v.y;
    var zz := v.z * v.z;
    if xx < yy && xx < zz then Vec3(0, v.z, -v.y)
    else if !(xx < yy) && yy < zz then Vec3(-v.z, 0, v.x)
    else Vec3(v.y, -v.x, 0)
  }

  /** Which component the candidate zeroes: 0 for x, 1 for y, 2 for z. */
  function OrthoZeroed(v: Vec3): (i: int)
    ensures 0 <= i < 3
    ensures i == 0 ==> OrthoCandidate(v).x == 0
    ensures i == 1 ==> OrthoCandidate(v).y == 0
    ensures i == 2 ==> OrthoCandidate(v).z == 0
    ensures var sq := [v.x * v.x, v.y * v.y, v.z * v.z];
            forall j :: 0 <= j < 3 ==> sq[i] <= sq[j]
  {
    var xx := v.x * v.x;
    var yy := v.y * v.y;
    var zz := v.z * v.z;
    if xx < yy && xx < zz then 0
    else if !(xx < yy) && yy < zz then 1
    else 2
  }

  /** CalculateSomeOrthonormalVec: the candidate, normalised twice. */
  function SomeOrthonormalVec(lib: Lib, v: Vec3): Vec3
  {
    NormalizedTwice12(lib, OrthoCandidate(v))
  }

  // ---------------------------------------------------------------------
  // SetMaxAngleToNormalized

  /**
   * SetMaxAngleToNormalized(v, j, angle): a vector already within `angle`
   * of j (cosine below the dot product) is returned unchanged; otherwise
   * v is replaced by the unit vector at `angle` from j in the plane of v
   * and j.
   */
  function SetMaxAngleToNormalized(lib: Lib, v: Vec3, j: Vec3, angle: S16): (r: Vec3)
    ensures CosQ24(lib, angle) < Dot24(lib, v, j) ==> r == v
  {
    var dot := Dot24(lib, v, j);
    var cosine := CosQ24(lib, angle);
    if cosine < dot then v
    else
      var side := Scale24(lib, Normalized24(lib, Sub(v, Scale24(lib, j, dot))), SinQ24(lib, angle));
      Normalized24(lib, Add(side, Scale24(lib, j, cosine)))
  }

  // ---------------------------------------------------------------------
  // IterateSmoothStep

  /** SmoothStep applied n times. */
  function SmoothIter(lib: Lib, t: int, n: nat): int
    decreases n
  {
    if n == 0 then t else SmoothIter(lib, lib.smoothStep(t), n - 1)
  }

  /** Applying the smooth step m + n times is applying it n times to the m-fold result. */
  lemma {:induction false} SmoothIterAdd(lib: Lib, t: int, m: nat, n: nat)
    ensures SmoothIter(lib, t, m + n) == SmoothIter(lib, SmoothIter(lib, t, m), n)
    decreases m
  {
    if m > 0 {
      SmoothIterAdd(lib, lib.smoothStep(t), m - 1, n);
    }
  }

  /** The last of n + 1 steps is one more smooth step. */
  lemma {:induction false} SmoothIterLast(lib: Lib, t: int, n: nat)
    ensures SmoothIter(lib, t, n + 1) == lib.smoothStep(SmoothIter(lib, t, n))
  {
    SmoothIterAdd(lib, t, n, 1);
  }

  /** IterateSmoothStep: the loop over n (unsigned) smooth steps. */
  method IterateSmoothStep(lib: Lib, t0: int, n: nat) returns (t: int)
    ensures t == SmoothIter(lib, t0, n)
  {
    t := t0;
    var i := 0;
    while i < n
      invariant 0 <= i <= n
      invariant t == SmoothIter(lib, t0, i)
    {
      SmoothIterLast(lib, t0, i);
      t := lib.smoothStep(t);
      i := i + 1;
    }
  }
}
