/** Value-level linear algebra that the mutable Vector3 class is specified
    against: 3-vectors, quaternions with the Hamilton product, and 4x4
    matrices stored as 16 reals in column-major order. Coordinates are
    mathematical reals; floating-point rounding is not modelled. */
module Algebra {

  /** A 3-component vector (or point) value. */
  datatype Vec = Vec(x: real, y: real, z: real)

  const Zero: Vec := Vec(0.0, 0.0, 0.0)

  function Add(a: Vec, b: Vec): Vec {
    Vec(a.x + b.x, a.y + b.y, a.z + b.z)
  }

  /** Every coordinate multiplied by `s`; the squared length scales by s². */
  function Scale(v: Vec, s: real): (r: Vec)
    ensures NormSq(r) == s * s * NormSq(v)
    ensures s == 1.0 ==> r == v
    ensures s == 0.0 ==> r == Zero
  {
    var r := Vec(v.x * s, v.y * s, v.z * s);
    assert r.x * r.x == s * s * (v.x * v.x);
    assert r.y * r.y == s * s * (v.y * v.y);
    assert r.z * r.z == s * s * (v.z * v.z);
    r
  }

  function Dot(a: Vec, b: Vec): real {
    a.x * b.x + a.y * b.y + a.z * b.z
  }

  /** Squared Euclidean length: never negative, zero exactly for the zero vector. */
  function NormSq(v: Vec): (r: real)
    ensures r >= 0.0
    ensures r == 0.0 <==> v == Zero
  {
    SumOfSquaresZero(v.x, v.y, v.z, Dot(v, v));
    Dot(v, v)
  }

  /** A sum of three squares is non-negative, and only all-zero terms make it zero. */
  lemma SumOfSquaresZero(a: real, b: real, c: real, s: real)
    requires s == a * a + b * b + c * c
    ensures s >= 0.0
    ensures s <= 0.0 ==> a == 0.0 && b == 0.0 && c == 0.0
  {
    SquaresBelowSum(a, b, c, s);
    if s <= 0.0 {
      SquareBelowNonPositive(a, s);
      SquareBelowNonPositive(b, s);
      SquareBelowNonPositive(c, s);
    }
  }

  lemma SquaresBelowSum(a: real, b: real, c: real, s: real)
    requires s == a * a + b * b + c * c
    ensures s >= 0.0
    ensures s >= a * a && s >= b * b && s >= c * c
  {
  }

  lemma SquareBelowNonPositive(a: real, s: real)
    requires s >= a * a && s <= 0.0
    ensures a == 0.0
  {
    if a != 0.0 {
      QuotientOfSquare(a);
    }
  }

  lemma QuotientOfSquare(a: real)
    requires a != 0.0
    ensures (a * a) / a == a
  {
  }

  /** The cross product a × b; it is perpendicular to both operands. */
  function Cross(a: Vec, b: Vec): (r: Vec)
    ensures Dot(r, a) == 0.0 && Dot(r, b) == 0.0
  {
    Vec(a.y * b.z - a.z * b.y,
        a.z * b.x - a.x * b.z,
        a.x * b.y - a.y * b.x)
  }

  lemma DotCommutative(a: Vec, b: Vec)
    ensures Dot(a, b) == Dot(b, a)
  {
  }

  lemma CrossAntiCommutative(a: Vec, b: Vec)
    ensures Cross(b, a) == Scale(Cross(a, b), -1.0)
  {
  }

  lemma CrossSelfIsZero(a: Vec)
    ensures Cross(a, a) == Zero
  {
  }

  /** The right-handed basis: x × y = z. */
  lemma CrossOfBasis()
    ensures Cross(Vec(1.0, 0.0, 0.0), Vec(0.0, 1.0, 0.0)) == Vec(0.0, 0.0, 1.0)
  {
  }

  /** Lagrange's identity: |a × b|² = |a|²|b|² − (a · b)². */
  lemma {:induction false} Lagrange(a: Vec, b: Vec)
    ensures NormSq(Cross(a, b)) == NormSq(a) * NormSq(b) - Dot(a, b) * Dot(a, b)
  {
  }

  // ---------------------------------------------------------------------
  // Length and normalisation

  /** `sqrt` returns the exact non-negative square root of every non-negative real. */
  ghost predicate IsSquareRoot(sqrt: real -> real) {
    forall t :: t >= 0.0 ==> sqrt(t) >= 0.0 && sqrt(t) * sqrt(t) == t
  }

  /** v divided by its length `len`; a zero length gives the zero vector
      instead of a division. */
  function Normalized(v: Vec, len: real): (r: Vec)
    ensures len == 0.0 ==> r == Zero
    ensures len != 0.0 ==> NormSq(r) * (len * len) == NormSq(v)
  {
    if len != 0.0 then
      var r := Scale(v, 1.0 / len);
      ReciprocalSquare(len, NormSq(v), NormSq(r));
      r
    else
      Zero
  }

  lemma ReciprocalSquare(len: real, n: real, nr: real)
    requires len != 0.0
    requires nr == 1.0 / len * (1.0 / len) * n
    ensures nr * (len * len) == n
  {
  }

  /** Normalising keeps the result on the line through v. */
  lemma NormalizedParallel(v: Vec, len: real)
    ensures Cross(Normalized(v, len), v) == Zero
  {
  }

  /** The zero vector normalises to itself whatever length is reported. */
  lemma NormalizedZero(len: real)
    ensures Normalized(Zero, len) == Zero
  {
  }

  /** With the exact length of a non-zero vector, the result has unit length
      and points the same way: its dot product with v is v's length. */
  lemma {:induction false} NormalizedIsUnit(v: Vec, len: real)
    requires v != Zero && len >= 0.0 && len * len == NormSq(v)
    ensures NormSq(Normalized(v, len)) == 1.0
    ensures Dot(Normalized(v, len), v) == len
  {
    NonZeroLength(len, NormSq(v));
    var r := Normalized(v, len);
    UnitFromSquare(NormSq(r), NormSq(v));
    DotOfScale(v, 1.0 / len);
    ScaledLength(len, NormSq(v), Dot(r, v));
  }

  lemma DotOfScale(v: Vec, s: real)
    ensures Dot(Scale(v, s), v) == s * NormSq(v)
  {
  }

  lemma ScaledLength(len: real, n: real, d: real)
    requires len != 0.0 && len * len == n && d == 1.0 / len * n
    ensures d == len
  {
  }

  lemma NonZeroLength(len: real, n: real)
    requires n != 0.0 && len * len == n
    ensures len != 0.0
  {
  }

  lemma UnitFromSquare(nr: real, sq: real)
    requires sq != 0.0 && nr * sq == sq
    ensures nr == 1.0
  {
    CancelFactor(nr, sq);
  }

  /** Normalising an already normalised vector changes nothing. */
  lemma {:induction false} NormalizeIdempotent(v: Vec, len: real, len2: real)
    requires v != Zero && len >= 0.0 && len * len == NormSq(v)
    requires len2 >= 0.0 && len2 * len2 == NormSq(Normalized(v, len))
    ensures Normalized(Normalized(v, len), len2) == Normalized(v, len)
  {
    NormalizedIsUnit(v, len);
    UnitRoot(len2);
  }

  lemma UnitRoot(a: real)
    requires a >= 0.0 && a * a == 1.0
    ensures a == 1.0
  {
    ZeroProduct(a - 1.0, a + 1.0, (a - 1.0) * (a + 1.0));
  }

  lemma ZeroProduct(x: real, p: real, q: real)
    requires q == x * p && q == 0.0 && p != 0.0
    ensures x == 0.0
  {
    CancelFactor(x, p);
  }

  lemma CancelFactor(x: real, p: real)
    requires p != 0.0
    ensures (x * p) / p == x
  {
  }

  // ---------------------------------------------------------------------
  // Quaternions

  /** A quaternion x·i + y·j + z·k + w; (0, 0, 0, 1) is the identity rotation. */
  datatype Quaternion = Quaternion(x: real, y: real, z: real, w: real)

  const IdentityQuaternion: Quaternion := Quaternion(0.0, 0.0, 0.0, 1.0)

  /** The Hamilton product p · q. */
  function Mul(p: Quaternion, q: Quaternion): Quaternion {
    Quaternion(p.w * q.x + p.x * q.w + p.y * q.z - p.z * q.y,
               p.w * q.y - p.x * q.z + p.y * q.w + p.z * q.x,
               p.w * q.z + p.x * q.y - p.y * q.x + p.z * q.w,
               p.w * q.w - p.x * q.x - p.y * q.y - p.z * q.z)
  }

  function Conjugate(q: Quaternion): Quaternion {
    Quaternion(-q.x, -q.y, -q.z, q.w)
  }

  function QNormSq(q: Quaternion): real {
    q.x * q.x + q.y * q.y + q.z * q.z + q.w * q.w
  }

  predicate IsUnit(q: Quaternion) {
    QNormSq(q) == 1.0
  }

  /** The vector v as the pure quaternion (v, 0). */
  function Pure(v: Vec): Quaternion {
    Quaternion(v.x, v.y, v.z, 0.0)
  }

  function VectorPart(q: Quaternion): Vec {
    Vec(q.x, q.y, q.z)
  }

  /** Euler's four-square identity: the norm is multiplicative. */
  lemma FourSquare(p: Quaternion, q: Quaternion)
    ensures QNormSq(Mul(p, q)) == QNormSq(p) * QNormSq(q)
  {
    var r := Mul(p, q);
    EulerFourSquare(p.x, p.y, p.z, p.w, q.x, q.y, q.z, q.w, r.x, r.y, r.z, r.w);
  }

  /** The four-square identity on scalars, with (c1, c2, c3, c4) the product. */
  lemma EulerFourSquare(a1: real, a2: real, a3: real, a4: real, b1: real, b2: real, b3: real, b4: real,
                        c1: real, c2: real, c3: real, c4: real)
    requires c1 == a4 * b1 + a1 * b4 + a2 * b3 - a3 * b2
    requires c2 == a4 * b2 - a1 * b3 + a2 * b4 + a3 * b1
    requires c3 == a4 * b3 + a1 * b2 - a2 * b1 + a3 * b4
    requires c4 == a4 * b4 - a1 * b1 - a2 * b2 - a3 * b3
    ensures c1 * c1 + c2 * c2 + c3 * c3 + c4 * c4
         == (a1 * a1 + a2 * a2 + a3 * a3 + a4 * a4) * (b1 * b1 + b2 * b2 + b3 * b3 + b4 * b4)
  {
  }

  /** q · conj(q) = |q|², so the conjugate is the inverse exactly when q is a unit. */
  lemma ConjugateIsInverse(q: Quaternion)
    ensures Mul(q, Conjugate(q)) == Quaternion(0.0, 0.0, 0.0, QNormSq(q))
    ensures IsUnit(q) ==> Mul(q, Conjugate(q)) == IdentityQuaternion
  {
  }

  /** The sandwich q · (v, 0) · conj(q) is again a pure quaternion. */
  lemma SandwichIsPure(v: Vec, q: Quaternion)
    ensures Mul(Mul(q, Pure(v)), Conjugate(q)).w == 0.0
  {
  }

  /** The image of v under the sandwich q · v · conj(q); for a unit q this is
      the rotation that q represents. The squared length is multiplied by |q|⁴. */
  function Rotate(v: Vec, q: Quaternion): (r: Vec)
    ensures NormSq(r) == QNormSq(q) * QNormSq(q) * NormSq(v)
  {
    var s := Mul(Mul(q, Pure(v)), Conjugate(q));
    SandwichIsPure(v, q);
    FourSquare(q, Pure(v));
    FourSquare(Mul(q, Pure(v)), Conjugate(q));
    VectorPart(s)
  }

  lemma RotateByIdentity(v: Vec)
    ensures Rotate(v, IdentityQuaternion) == v
  {
    assert Mul(IdentityQuaternion, Pure(v)) == Pure(v);
    assert Mul(Pure(v), Conjugate(IdentityQuaternion)) == Pure(v);
  }

  /** A unit quaternion preserves lengths. */
  lemma RotatePreservesNorm(v: Vec, q: Quaternion)
    requires IsUnit(q)
    ensures NormSq(Rotate(v, q)) == NormSq(v)
  {
  }

  lemma RotateAdditive(a: Vec, b: Vec, q: Quaternion)
    ensures Rotate(Add(a, b), q) == Add(Rotate(a, q), Rotate(b, q))
  {
  }

  /** A unit quaternion preserves dot products, hence angles. */
  lemma {:induction false} RotatePreservesDot(a: Vec, b: Vec, q: Quaternion)
    requires IsUnit(q)
    ensures Dot(Rotate(a, q), Rotate(b, q)) == Dot(a, b)
  {
    var ra, rb := Rotate(a, q), Rotate(b, q);
    RotateAdditive(a, b, q);
    assert NormSq(Add(ra, rb)) == NormSq(ra) + 2.0 * Dot(ra, rb) + NormSq(rb);
    assert NormSq(Add(a, b)) == NormSq(a) + 2.0 * Dot(a, b) + NormSq(b);
  }

  // ---------------------------------------------------------------------
  // 4x4 matrices, column-major

  /** Sixteen entries; entry (row, col) is at index 4 * col + row. */
  type Matrix4 = m: seq<real> | |m| == 16
    witness [1.0, 0.0, 0.0, 0.0,  0.0, 1.0, 0.0, 0.0,
             0.0, 0.0, 1.0, 0.0,  0.0, 0.0, 0.0, 1.0]

  const IdentityMatrix: Matrix4 :=
    [1.0, 0.0, 0.0, 0.0,  0.0, 1.0, 0.0, 0.0,
     0.0, 0.0, 1.0, 0.0,  0.0, 0.0, 0.0, 1.0]

  function Entry(m: Matrix4, row: nat, col: nat): real
    requires row < 4 && col < 4
  {
    m[4 * col + row]
  }

  /** Row `row` of m times the homogeneous point (v, 1). */
  function RowTimesPoint(m: Matrix4, row: nat, v: Vec): real
    requires row < 4
  {
    Entry(m, row, 0) * v.x + Entry(m, row, 1) * v.y + Entry(m, row, 2) * v.z + Entry(m, row, 3)
  }

  /** The homogeneous coordinate w of m · (v, 1). */
  function HomogeneousW(v: Vec, m: Matrix4): real {
    RowTimesPoint(m, 3, v)
  }

  /** m · (v, 1) followed by the perspective divide by w. */
  function Project(v: Vec, m: Matrix4): Vec
    requires HomogeneousW(v, m) != 0.0
  {
    var w := HomogeneousW(v, m);
    Vec(RowTimesPoint(m, 0, v) / w, RowTimesPoint(m, 1, v) / w, RowTimesPoint(m, 2, v) / w)
  }

  predicate IsAffine(m: Matrix4) {
    Entry(m, 3, 0) == 0.0 && Entry(m, 3, 1) == 0.0 && Entry(m, 3, 2) == 0.0 && Entry(m, 3, 3) == 1.0
  }

  function Translation(t: Vec): (m: Matrix4)
    ensures IsAffine(m)
  {
    [1.0, 0.0, 0.0, 0.0,  0.0, 1.0, 0.0, 0.0,
     0.0, 0.0, 1.0, 0.0,  t.x, t.y, t.z, 1.0]
  }

  /** Every entry of m multiplied by k. */
  function ScaleMatrix(m: Matrix4, k: real): Matrix4
  {
    seq(16, i requires 0 <= i < 16 => k * m[i])
  }

  lemma ProjectIdentity(v: Vec)
    ensures HomogeneousW(v, IdentityMatrix) == 1.0
    ensures Project(v, IdentityMatrix) == v
  {
  }

  /** An affine matrix never divides: w is 1 and the image is the upper three rows. */
  lemma ProjectAffine(v: Vec, m: Matrix4)
    requires IsAffine(m)
    ensures HomogeneousW(v, m) == 1.0
    ensures Project(v, m) == Vec(RowTimesPoint(m, 0, v), RowTimesPoint(m, 1, v), RowTimesPoint(m, 2, v))
  {
  }

  /** The translation column sits at indices 12, 13, 14. */
  lemma ProjectTranslation(v: Vec, t: Vec)
    ensures Project(v, Translation(t)) == Add(v, t)
  {
  }

  /** The perspective divide makes the result independent of a non-zero
      rescaling of the whole matrix. */
  lemma {:induction false} ProjectScaleInvariant(v: Vec, m: Matrix4, k: real)
    requires HomogeneousW(v, m) != 0.0 && k != 0.0
    ensures HomogeneousW(v, ScaleMatrix(m, k)) == k * HomogeneousW(v, m)
    ensures Project(v, ScaleMatrix(m, k)) == Project(v, m)
  {
    RowScales(m, k, 3, v);
    RowQuotient(m, k, 0, v);
    RowQuotient(m, k, 1, v);
    RowQuotient(m, k, 2, v);
  }

  lemma RowScales(m: Matrix4, k: real, row: nat, v: Vec)
    requires row < 4
    ensures RowTimesPoint(ScaleMatrix(m, k), row, v) == k * RowTimesPoint(m, row, v)
  {
  }

  lemma QuotientCancels(x: real, y: real, a: real, w: real, k: real)
    requires x == k * a && y == k * w
    requires w != 0.0 && k != 0.0
    ensures x / y == a / w
  {
  }

  lemma RowQuotient(m: Matrix4, k: real, row: nat, v: Vec)
    requires row < 3 && HomogeneousW(v, m) != 0.0 && k != 0.0
    ensures HomogeneousW(v, ScaleMatrix(m, k)) != 0.0
    ensures RowTimesPoint(ScaleMatrix(m, k), row, v) / HomogeneousW(v, ScaleMatrix(m, k))
         == RowTimesPoint(m, row, v) / HomogeneousW(v, m)
  {
    var km := ScaleMatrix(m, k);
    RowScales(m, k, row, v);
    RowScales(m, k, 3, v);
    assert RowTimesPoint(km, row, v) == k * RowTimesPoint(m, row, v);
    assert HomogeneousW(v, km) == k * HomogeneousW(v, m);
    QuotientCancels(RowTimesPoint(km, row, v), HomogeneousW(v, km), RowTimesPoint(m, row, v), HomogeneousW(v, m), k);
  }
}
