# Vector3 of the WebVR polyfill, modelled in Dafny

The WebVR polyfill's math helpers include `Vector3`, a small mutable 3-vector class taken from
Three.js. It holds three coordinates `x`, `y`, `z`. Almost every method overwrites them in place and
returns the receiver so that calls can be chained. The class does the following:

- sets and copies coordinates;
- computes the length with the platform square root;
- normalises, with a special case that avoids dividing by a zero length;
- scales by a number;
- rotates by a quaternion, using an expanded form of the product q · v · conj(q);
- transforms the vector as a homogeneous point by a column-major 4×4 matrix, with a perspective divide;
- takes dot products;
- writes a cross product into the receiver, reading all operands before it writes any field.

The model has two modules:

- `Algebra` (`algebra.dfy`) holds the value-level definitions that the class is specified against.
  - `Vec` is a vector value, with `Dot`, `Cross`, `Scale` and `NormSq`.
  - `Normalized` is the normalisation rule.
  - `Quaternion` comes with the Hamilton product `Mul`, the `Conjugate`, and `Rotate`, the sandwich
    product.
  - `Matrix4` is a 4×4 matrix stored as 16 reals, entry (row, col) at index 4·col + row. `Project`
    multiplies by the matrix and then divides by w.

  The module also proves the algebra those definitions obey:
  - Lagrange's identity and the four-square identity;
  - a unit quaternion preserves lengths and dot products;
  - the identity, affine and translation matrices behave as expected;
  - projection does not change when the whole matrix is rescaled;
  - normalising gives unit length and is idempotent.
- `Polyfill` (`vector3.dfy`) holds `class Vector3`, with the three coordinate fields.
  - Each mutator is a method with `modifies this`. It returns `self == this` wherever the original
    returns the receiver, and it states the new `Value()` in terms of the old one and the `Algebra`
    definitions.
  - The method bodies follow the original line by line: the same snapshots into locals, the same
    expanded products, and the same single reciprocal of w.
  - Small lemmas (`ProductWithPure`, `ProductWithConjugate`, `ProjectByReciprocal`) connect those
    expanded forms to the definitions.

Coordinates are mathematical reals. `Math.sqrt` becomes a parameter `sqrt: real -> real` of
`length()` and `normalize()`. Properties that need an exact root assume `IsSquareRoot(sqrt)`.

In Three.js, the library this class is taken from, `Vector3.multiplyScalar` returns the receiver.
This copy (`Vector3.js:43-47`) returns nothing, and `Polyfill.Vector3.MultiplyScalar` follows this copy.

## Model

| member | source | states |
|---|---|---|
| `Polyfill.Vector3.constructor` | examples/polyfill/fill/Vector3.js:7-11 | the new vector holds the given coordinates; each one defaults to 0 |
| `Polyfill.Vector3.Set` | examples/polyfill/fill/Vector3.js:13-18 | afterwards the coordinates are exactly (x, y, z), and the receiver is returned |
| `Polyfill.Vector3.Copy` | examples/polyfill/fill/Vector3.js:20-25 | afterwards the receiver holds v's former coordinates, v itself is unchanged (also when v is the receiver), and the receiver is returned |
| `Algebra.NormSq` | examples/polyfill/fill/Vector3.js:27-29 | the sum of squares under the root is never negative, and it is zero exactly for the zero vector |
| `Polyfill.Vector3.Length` | examples/polyfill/fill/Vector3.js:27-29 | no contract of its own: sqrt(x²+y²+z²) with `sqrt` a parameter standing for `Math.sqrt`; its properties are in LengthIsRoot |
| `Polyfill.LengthIsRoot` | examples/polyfill/fill/Vector3.js:27-29 | with an exact square root, length() is non-negative, its square is x²+y²+z², and it is zero if and only if the vector is zero |
| `Polyfill.LengthThreeFourFive` | examples/polyfill/fill/Vector3.js:27-29 | the vector (3, 0, 4) has length 5 |
| `Algebra.Normalized` | examples/polyfill/fill/Vector3.js:31-41 | a zero length gives the zero vector; otherwise the squared length of the result times len² gives back the input's squared length |
| `Polyfill.Vector3.Normalize` | examples/polyfill/fill/Vector3.js:31-41 | the new value is the old value normalised by the old length; a zero vector stays zero; the receiver is returned |
| `Algebra.NormalizedZero` | examples/polyfill/fill/Vector3.js:35-39 | the zero vector normalises to the zero vector, whatever length is reported |
| `Algebra.NormalizedParallel` | examples/polyfill/fill/Vector3.js:31-41 | the result stays on the line through v: its cross product with v is zero (same orientation, under an exact root, is the dot-product clause of NormalizedIsUnit) |
| `Algebra.NormalizedIsUnit` | examples/polyfill/fill/Vector3.js:31-41 | given its exact length, a non-zero vector normalises to unit length, and its dot product with the result is that length |
| `Polyfill.NormalizeGivesUnit` | examples/polyfill/fill/Vector3.js:31-41 | with an exact square root, normalize() leaves any non-zero vector at length 1 |
| `Algebra.NormalizeIdempotent` | examples/polyfill/fill/Vector3.js:31-41 | normalising an already normalised vector leaves it unchanged |
| `Algebra.Scale` | examples/polyfill/fill/Vector3.js:43-47 | scaling by s multiplies the squared length by s²; s = 1 changes nothing; s = 0 gives the zero vector |
| `Polyfill.Vector3.MultiplyScalar` | examples/polyfill/fill/Vector3.js:43-47 | every coordinate is multiplied by the scalar; scalar 1 leaves the vector unchanged; nothing is returned |
| `Polyfill.ProductWithPure` | examples/polyfill/fill/Vector3.js:59-63 | the four expanded products ix, iy, iz, iw are the Hamilton product q · (v, 0) |
| `Polyfill.ProductWithConjugate` | examples/polyfill/fill/Vector3.js:65-68 | the three expanded result coordinates are the vector part of (ix, iy, iz, iw) · conj(q) |
| `Algebra.ConjugateIsInverse` | examples/polyfill/fill/Vector3.js:65-68 | q · conj(q) is the squared norm of q, so for a unit q the conjugate is the inverse that the second product uses |
| `Algebra.SandwichIsPure` | examples/polyfill/fill/Vector3.js:59-68 | the scalar part of q · (v, 0) · conj(q) is zero, so computing only x, y, z loses nothing |
| `Algebra.FourSquare` | examples/polyfill/fill/Vector3.js:59-68 | the quaternion norm is multiplicative (Euler's four-square identity) |
| `Algebra.Rotate` | examples/polyfill/fill/Vector3.js:49-71 | the sandwich q · v · conj(q) multiplies the squared length by the square of q's squared norm |
| `Polyfill.Vector3.ApplyQuaternion` | examples/polyfill/fill/Vector3.js:49-71 | the new value is q · v · conj(q) of the old one; the identity quaternion changes nothing; a unit quaternion keeps x²+y²+z²; the receiver is returned |
| `Algebra.RotateByIdentity` | examples/polyfill/fill/Vector3.js:49-71 | the identity quaternion (0, 0, 0, 1) leaves every vector unchanged |
| `Algebra.RotatePreservesNorm` | examples/polyfill/fill/Vector3.js:49-71 | a unit quaternion preserves squared length |
| `Algebra.RotateAdditive` | examples/polyfill/fill/Vector3.js:49-71 | rotating a sum is the sum of the rotated vectors |
| `Algebra.RotatePreservesDot` | examples/polyfill/fill/Vector3.js:49-71 | a unit quaternion preserves dot products, and so angles |
| `Polyfill.Vector3.ApplyMatrix4` | examples/polyfill/fill/Vector3.js:73-82 | the new value is m · (v, 1) divided by its w, with m read column-major; the identity matrix changes nothing; the receiver is returned |
| `Polyfill.HomogeneousWEntries` | examples/polyfill/fill/Vector3.js:77 | w is formed from entries 3, 7, 11 and 15, the bottom row of the column-major matrix |
| `Polyfill.ProjectByReciprocal` | examples/polyfill/fill/Vector3.js:77-80 | one reciprocal of w followed by three multiplications is the same as dividing each row by w |
| `Algebra.ProjectIdentity` | examples/polyfill/fill/Vector3.js:73-82 | with the identity matrix, w is 1 and the point is unchanged |
| `Algebra.ProjectAffine` | examples/polyfill/fill/Vector3.js:73-82 | an affine matrix (bottom row 0, 0, 0, 1) gives w = 1, so no real division happens |
| `Algebra.ProjectTranslation` | examples/polyfill/fill/Vector3.js:78-80 | a translation matrix, whose translation sits at indices 12, 13 and 14, adds the translation to the point |
| `Algebra.ProjectScaleInvariant` | examples/polyfill/fill/Vector3.js:77-80 | scaling the whole matrix by k ≠ 0 scales w by k and leaves the projected point unchanged |
| `Polyfill.Vector3.Dot` | examples/polyfill/fill/Vector3.js:84-86 | the dot product of the two coordinate triples; reading the same vector twice gives its squared length; neither vector is written |
| `Algebra.DotCommutative` | examples/polyfill/fill/Vector3.js:84-86 | a · b = b · a |
| `Algebra.Cross` | examples/polyfill/fill/Vector3.js:88-95 | the cross product is perpendicular to both operands |
| `Polyfill.Vector3.CrossVectors` | examples/polyfill/fill/Vector3.js:88-95 | the new value is a × b of the operands as they were before the call, also when a or b is the receiver; the receiver is returned |
| `Polyfill.CrossInPlace` | examples/polyfill/fill/Vector3.js:88-95 | a.crossVectors(a, b) leaves a holding its old value × b, which is perpendicular to the old a |
| `Algebra.CrossAntiCommutative` | examples/polyfill/fill/Vector3.js:88-95 | b × a = −(a × b) |
| `Algebra.CrossSelfIsZero` | examples/polyfill/fill/Vector3.js:88-95 | a × a is the zero vector |
| `Algebra.CrossOfBasis` | examples/polyfill/fill/Vector3.js:88-95 | (1, 0, 0) × (0, 1, 0) = (0, 0, 1), the right-handed basis |
| `Algebra.Lagrange` | examples/polyfill/fill/Vector3.js:88-95 | the squared length of a × b is NormSq(a)·NormSq(b) − (a · b)² |

## Left out

- IEEE-754 doubles are not modelled. Coordinates are mathematical reals, so there is no rounding, no NaN and no ±Infinity. Properties such as "normalize gives length 1" hold exactly here, but only approximately in the original.
- `Math.sqrt` is not modelled. It is the parameter `sqrt`, and results that need its value assume it is the exact non-negative square root (`IsSquareRoot`). A floating-point square root only approximates that.
- Polyfill.Vector3.ApplyMatrix4: requires w ≠ 0. In the original a zero w yields an infinite reciprocal and then Infinity or NaN coordinates; the model has no such values.
- Polyfill.Vector3.Normalize: the method's own contract does not state that the result has unit length. That fact is `Polyfill.NormalizeGivesUnit`, stated about the value the method computes, because it needs an exact square root.
- Polyfill.Vector3.Length: has no contract of its own, since its result is whatever `sqrt` returns. Its properties are in `Polyfill.LengthIsRoot`.
- The quaternion and matrix arguments are values (a `Quaternion` datatype and a 16-element sequence), not arbitrary objects with numeric fields. Reading a missing field is a runtime type error in the original and cannot happen here. The receiver cannot alias them.
- Composing rotations, where applying q and then p equals applying p · q, is not proved: associativity of the Hamilton product is not part of this model.
- The module's `export default` has no counterpart; the class is a Dafny class in module `Polyfill`.
