/** The mutable Vector3 class of the WebVR polyfill (a cut-down Three.js
    Vector3). Every mutator updates the three coordinate fields in place and,
    like the original, most of them return the receiver so that calls can be
    chained. Each method is specified against the value-level definitions of
    module Algebra. */
module Polyfill {
  import opened Algebra

  class Vector3 {
    var x: real
    var y: real
    var z: real

    /** The coordinates as a value. */
    function Value(): Vec
      reads this
    {
      Vec(x, y, z)
    }

    /** Omitted coordinates default to 0. */
    constructor (x: real := 0.0, y: real := 0.0, z: real := 0.0)
      ensures Value() == Vec(x, y, z)
    {
      this.x := x;
      this.y := y;
      this.z := z;
    }

    method Set(x: real, y: real, z: real) returns (self: Vector3)
      modifies this
      ensures self == this
      ensures Value() == Vec(x, y, z)
    {
      this.x := x;
      this.y := y;
      this.z := z;
      self := this;
    }

    /** Copies v's coordinates; v itself is left as it was. */
    method Copy(v: Vector3) returns (self: Vector3)
      modifies this
      ensures self == this
      ensures Value() == old(v.Value())
      ensures v.Value() == old(v.Value())
    {
      x := v.x;
      y := v.y;
      z := v.z;
      self := this;
    }

    /** The Euclidean length; `sqrt` stands for the platform's square root. */
    function Length(sqrt: real -> real): real
      reads this
    {
      sqrt(NormSq(Value()))
    }

    /** Scales the vector to unit length; a zero-length vector becomes the
        zero vector and nothing is divided. */
    method Normalize(sqrt: real -> real) returns (self: Vector3)
      modifies this
      ensures self == this
      ensures Value() == Normalized(old(Value()), old(Length(sqrt)))
      ensures old(Value()) == Zero ==> Value() == Zero
    {
      var scalar := Length(sqrt);
      if scalar != 0.0 {
        MultiplyScalar(1.0 / scalar);
      } else {
        x := 0.0;
        y := 0.0;
        z := 0.0;
      }
      NormalizedZero(scalar);
      self := this;
    }

    /** Multiplies every coordinate by `scalar`; unlike the other mutators it
        returns nothing. */
    method MultiplyScalar(scalar: real)
      modifies this
      ensures Value() == Scale(old(Value()), scalar)
      ensures scalar == 1.0 ==> Value() == old(Value())
    {
      x := x * scalar;
      y := y * scalar;
      z := z * scalar;
    }

    /** Applies the rotation of q by the expanded product q · v · conj(q). */
    method ApplyQuaternion(q: Quaternion) returns (self: Vector3)
      modifies this
      ensures self == this
      ensures Value() == Rotate(old(Value()), q)
      ensures q == IdentityQuaternion ==> Value() == old(Value())
      ensures IsUnit(q) ==> NormSq(Value()) == NormSq(old(Value()))
    {
      var x, y, z := this.x, this.y, this.z;
      var qx, qy, qz, qw := q.x, q.y, q.z, q.w;
      // q · v
      var ix := qw * x + qy * z - qz * y;
      var iy := qw * y + qz * x - qx * z;
      var iz := qw * z + qx * y - qy * x;
      var iw := - qx * x - qy * y - qz * z;
      // (q · v) · conj(q)
      this.x := ix * qw + iw * - qx + iy * - qz - iz * - qy;
      this.y := iy * qw + iw * - qy + iz * - qx - ix * - qz;
      this.z := iz * qw + iw * - qz + ix * - qy - iy * - qx;
      ghost var v := Vec(x, y, z);
      assert q == Quaternion(qx, qy, qz, qw);
      ProductWithPure(qx, qy, qz, qw, x, y, z);
      ProductWithConjugate(qx, qy, qz, qw, ix, iy, iz, iw);
      RotateByIdentity(v);
      if IsUnit(q) {
        RotatePreservesNorm(v, q);
      }
      self := this;
    }

    /** Transforms the point by the column-major matrix m, dividing by the
        homogeneous coordinate w. */
    method ApplyMatrix4(m: Matrix4) returns (self: Vector3)
      requires HomogeneousW(Value(), m) != 0.0
      modifies this
      ensures self == this
      ensures Value() == Project(old(Value()), m)
      ensures m == IdentityMatrix ==> Value() == old(Value())
    {
      var x, y, z := this.x, this.y, this.z;
      HomogeneousWEntries(m, x, y, z);
      var w := 1.0 / (m[3] * x + m[7] * y + m[11] * z + m[15]);
      this.x := (m[0] * x + m[4] * y + m[8] * z + m[12]) * w;
      this.y := (m[1] * x + m[5] * y + m[9] * z + m[13]) * w;
      this.z := (m[2] * x + m[6] * y + m[10] * z + m[14]) * w;
      ProjectByReciprocal(m, x, y, z, w, this.x, this.y, this.z);
      ProjectIdentity(Vec(x, y, z));
      self := this;
    }

    /** The dot product with v; neither vector changes. */
    function Dot(v: Vector3): (r: real)
      reads this, v
      ensures r == Algebra.Dot(v.Value(), Value())
      ensures v == this ==> r == NormSq(Value())
    {
      x * v.x + y * v.y + z * v.z
    }

    /** Sets this vector to a × b. All six operand coordinates are read before
        any is written, so the result is right even when a or b is this. */
    method CrossVectors(a: Vector3, b: Vector3) returns (self: Vector3)
      modifies this
      ensures self == this
      ensures Value() == Cross(old(a.Value()), old(b.Value()))
    {
      var ax, ay, az := a.x, a.y, a.z;
      var bx, bY, bz := b.x, b.y, b.z;
      x := ay * bz - az * bY;
      y := az * bx - ax * bz;
      z := ax * bY - ay * bx;
      self := this;
    }
  }

  /** q · (v, 0) written out as the four products that applyQuaternion computes first. */
  lemma ProductWithPure(qx: real, qy: real, qz: real, qw: real, x: real, y: real, z: real)
    ensures Mul(Quaternion(qx, qy, qz, qw), Pure(Vec(x, y, z)))
         == Quaternion(qw * x + qy * z - qz * y, qw * y + qz * x - qx * z,
                       qw * z + qx * y - qy * x, - qx * x - qy * y - qz * z)
  {
  }

  /** The vector part of i · conj(q) written out as applyQuaternion's second step. */
  lemma ProductWithConjugate(qx: real, qy: real, qz: real, qw: real, ix: real, iy: real, iz: real, iw: real)
    ensures VectorPart(Mul(Quaternion(ix, iy, iz, iw), Conjugate(Quaternion(qx, qy, qz, qw))))
         == Vec(ix * qw + iw * - qx + iy * - qz - iz * - qy,
                iy * qw + iw * - qy + iz * - qx - ix * - qz,
                iz * qw + iw * - qz + ix * - qy - iy * - qx)
  {
  }

  /** The perspective divide done as applyMatrix4 does it: one reciprocal of w,
      then three multiplications. */
  lemma ProjectByReciprocal(m: Matrix4, x: real, y: real, z: real, w: real, nx: real, ny: real, nz: real)
    requires HomogeneousW(Vec(x, y, z), m) != 0.0
    requires w == 1.0 / (m[3] * x + m[7] * y + m[11] * z + m[15])
    requires nx == (m[0] * x + m[4] * y + m[8] * z + m[12]) * w
    requires ny == (m[1] * x + m[5] * y + m[9] * z + m[13]) * w
    requires nz == (m[2] * x + m[6] * y + m[10] * z + m[14]) * w
    ensures Project(Vec(x, y, z), m) == Vec(nx, ny, nz)
  {
    var v, d := Vec(x, y, z), m[3] * x + m[7] * y + m[11] * z + m[15];
    HomogeneousWEntries(m, x, y, z);
    QuotientAsProduct(RowTimesPoint(m, 0, v), d);
    QuotientAsProduct(RowTimesPoint(m, 1, v), d);
    QuotientAsProduct(RowTimesPoint(m, 2, v), d);
  }

  /** w read straight from the column-major entries 3, 7, 11 and 15. */
  lemma HomogeneousWEntries(m: Matrix4, x: real, y: real, z: real)
    ensures HomogeneousW(Vec(x, y, z), m) == m[3] * x + m[7] * y + m[11] * z + m[15]
  {
  }

  lemma QuotientAsProduct(a: real, d: real)
    requires d != 0.0
    ensures a / d == a * (1.0 / d)
  {
  }

  /** With an exact square root, length() is the non-negative number whose
      square is x² + y² + z², and it is zero only for the zero vector. */
  lemma {:induction false} LengthIsRoot(v: Vector3, sqrt: real -> real)
    requires IsSquareRoot(sqrt)
    ensures v.Length(sqrt) >= 0.0
    ensures v.Length(sqrt) * v.Length(sqrt) == NormSq(v.Value())
    ensures v.Length(sqrt) == 0.0 <==> v.Value() == Zero
  {
    var n := NormSq(v.Value());
    RootOfSum(sqrt, n);
    RootOfZero(sqrt(n), n);
  }

  /** An exact square root applied to one non-negative number. */
  lemma RootOfSum(sqrt: real -> real, n: real)
    requires IsSquareRoot(sqrt) && n >= 0.0
    ensures sqrt(n) >= 0.0 && sqrt(n) * sqrt(n) == n
  {
  }

  /** With an exact square root, normalize() leaves a non-zero vector at unit length. */
  lemma {:induction false} NormalizeGivesUnit(v: Vector3, sqrt: real -> real)
    requires IsSquareRoot(sqrt) && v.Value() != Zero
    ensures NormSq(Normalized(v.Value(), v.Length(sqrt))) == 1.0
  {
    LengthIsRoot(v, sqrt);
    NormalizedIsUnit(v.Value(), v.Length(sqrt));
  }

  /** The 3-4-5 triangle: (3, 0, 4) has length 5. */
  lemma {:induction false} LengthThreeFourFive(v: Vector3, sqrt: real -> real)
    requires IsSquareRoot(sqrt) && v.Value() == Vec(3.0, 0.0, 4.0)
    ensures v.Length(sqrt) == 5.0
  {
    LengthIsRoot(v, sqrt);
    var r := v.Length(sqrt);
    ZeroProduct(r - 5.0, r + 5.0, (r - 5.0) * (r + 5.0));
  }

  /** `sqrt` of a non-negative n is zero exactly when n is. */
  lemma RootOfZero(r: real, n: real)
    requires r >= 0.0 && r * r == n
    ensures r == 0.0 <==> n == 0.0
  {
    if n == 0.0 {
      SquareBelowNonPositive(r, n);
    }
  }

  /** The in-place form a.crossVectors(a, b): a receives a × b, computed from
      a's coordinates before the call. */
  method CrossInPlace(a: Vector3, b: Vector3)
    modifies a
    ensures a.Value() == Cross(old(a.Value()), old(b.Value()))
    ensures Dot(a.Value(), old(a.Value())) == 0.0
  {
    var _ := a.CrossVectors(a, b);
  }
}
