# Multivector3D in Dafny

A model of `multivector3d/Multivector.py`, a small value type for multivectors
of the three-dimensional geometric (Clifford) algebra Cl(3,0), with proofs of
its algebraic laws.

A `Multivector3D` has four graded parts:

- a scalar;
- a vector over e1, e2, e3;
- a bivector over the cyclic basis e2e3, e3e1, e1e2;
- a pseudoscalar over e1e2e3.

Its operators are:

- component-wise addition;
- subtraction, written as `a + b*(-1)`;
- a two-way `*`: scaling by a number, or the closed-form geometric product;
- division by a number;
- the symmetric `dot`, `(ab + ba)/2`;
- the antisymmetric wedge `^`, `(ab - ba)/2`;
- the dual `~a`, which is `a` times the unit pseudoscalar;
- the basis vectors `E1`, `E2` and `E3`.

Every operator builds a fresh value, so the model is a datatype with pure
functions. The parts are exact `real`s.

Files:

- `vec3.dfy` (module `Vectors`): real 3-vectors, the dot and cross products
  that numpy supplies to the source, and small regrouping lemmas over reals.
- `multivector.dfy` (module `Multivector`): the datatype and every operator.
  - The dynamic type test on the right operand of `*` and `/` becomes an
    `Operand` datatype: `Number(k)` or `Multi(m)`.
  - `Mul` dispatches to `ScaleMul` (the number branch) or to `GeoMul` (the
    geometric product). `GeoMul` is written grade by grade, exactly as the
    four expressions of the source.
  - `Div` returns a `Result`: a zero divisor gives `ZeroDivision`, and a
    multivector divisor gives `NotANumber`.
- `products.dfy` (module `ProductLinearity`): the geometric product
  distributes over addition on both sides, and a number factor moves out of
  its left operand.
- `associativity.dfy` (module `Associativity`): the geometric product is
  associative. The proof:
  - shows that the law holds for each of the eight unit blades on the left;
  - shows that it carries over to sums and multiples of the left operand;
  - writes every multivector as a combination of blades.

  A number factor on the right operand then follows from associativity.
- `laws.dfy` (module `MultivectorLaws`): the additive group, scaling,
  division, the basis products, the reduction of `dot` and `^` to the
  Euclidean dot and cross products, and the dual.

## Model

| member | source | states |
|---|---|---|
| Multivector.Multivector3D | multivector3d/Multivector.py:19-36 | the datatype: four parts, each defaulting to zero as in `__init__`; AddIdentity states that the all-defaults value is the zero of `+` |
| Multivector.E1 | multivector3d/Multivector.py:126 | the basis vector e1; BasisSquares, BasisBivectors and BasisAnticommute state its products |
| Multivector.E2 | multivector3d/Multivector.py:127 | the basis vector e2; BasisSquares, BasisBivectors and BasisAnticommute state its products |
| Multivector.E3 | multivector3d/Multivector.py:128 | the basis vector e3; BasisSquares, BasisBivectors and BasisAnticommute state its products |
| Multivector.UnitPseudoscalar | multivector3d/Multivector.py:118 | the `Multivector3D(pscalar=1)` of `~`; BasisTriple states that it is e1e2e3, and PseudoscalarSquare that it squares to -1 |
| Multivector.Add | multivector3d/Multivector.py:48-51 | component-wise sum of the four parts; no contract of its own: AddCommutative, AddAssociative, AddIdentity, Sub and ScaleMulAdd state its laws |
| Multivector.ScaleMul | multivector3d/Multivector.py:68-73 | the number branch of `*`, every part times `k`; no contract of its own: ScaleMulCompose, ScaleMulOne, ScaleMulReciprocal, ScaleMulAdd and ScalarFactor state its laws |
| Multivector.GeoMul | multivector3d/Multivector.py:75-95 | the multivector branch of `*`, assembled from the four grades below; no contract of its own: GeoMulAddLeft, GeoMulAddRight, GeoMulScaleLeft, GeoMulScaleRight, GeoMulAssociative, VectorProduct and the basis lemmas state its laws |
| Multivector.ProductScalar | multivector3d/Multivector.py:76-79 | grade 0 of the product; constrained through GeoMul by the lemmas above |
| Multivector.ProductVector | multivector3d/Multivector.py:80-85 | grade 1 of the product; constrained through GeoMul by the lemmas above |
| Multivector.ProductBivector | multivector3d/Multivector.py:86-91 | grade 2 of the product; constrained through GeoMul by the lemmas above |
| Multivector.ProductPscalar | multivector3d/Multivector.py:92-95 | grade 3 of the product; constrained through GeoMul by the lemmas above |
| Multivector.Mul | multivector3d/Multivector.py:58-95 | `a * o` is the geometric product of `a` with the operand read as a multivector, a number `k` being the scalar-only multivector `k`: the number branch agrees with the multivector branch |
| Multivector.Dot | multivector3d/Multivector.py:104-108 | `(a*b + b*a)/2`; no contract of its own: DotSymmetric, DotPlusWedge, DotOfVectors and DotExample state its laws |
| Multivector.Wedge | multivector3d/Multivector.py:110-114 | `(a*b - b*a)/2`; no contract of its own: WedgeAntisymmetric, DotPlusWedge, WedgeOfVectors and WedgeExample state its laws |
| Multivector.Sub | multivector3d/Multivector.py:53-56 | `a - b` is the component-wise difference of all four parts, and adding `b` back to it gives `a` |
| Multivector.ScaleMulCompose | multivector3d/Multivector.py:68-73 | scaling by `k` and then by `m` is scaling by `k*m` |
| Multivector.ScaleMulOne | multivector3d/Multivector.py:68-73 | scaling by 1 leaves every part unchanged |
| Multivector.ScaleMulReciprocal | multivector3d/Multivector.py:97-102 | for `k != 0`, scaling by `1/k` and then by `k` gives back the original multivector |
| Multivector.Div | multivector3d/Multivector.py:97-102 | division succeeds exactly when the divisor is a non-zero number; a zero number gives `ZeroDivision`; a multivector divisor gives `NotANumber` (the `ValueError`); a successful quotient times the divisor is the dividend |
| Multivector.Half | multivector3d/Multivector.py:104-114 | the `/2` of `dot` and `^` is a division by the number 2 that always succeeds |
| Multivector.Dual | multivector3d/Multivector.py:116-118 | `~a` moves each grade to its complement: the scalar becomes the pseudoscalar, the vector becomes the bivector, the bivector becomes minus the vector, and the pseudoscalar becomes minus the scalar |
| MultivectorLaws.AddCommutative | multivector3d/Multivector.py:48-51 | `a + b == b + a` |
| MultivectorLaws.AddAssociative | multivector3d/Multivector.py:48-51 | `(a + b) + c == a + (b + c)` |
| MultivectorLaws.AddIdentity | multivector3d/Multivector.py:19-51 | the multivector built with every default (all parts zero) is a two-sided identity of `+` |
| MultivectorLaws.SubSelf | multivector3d/Multivector.py:53-56 | `a - a`, that is `a + a*(-1)`, is the zero multivector |
| MultivectorLaws.ScaleMulAdd | multivector3d/Multivector.py:68-73 | scaling by a number distributes over `+` |
| MultivectorLaws.DivUndoesScale | multivector3d/Multivector.py:97-102 | for `k != 0`, `(a*k)/k` succeeds and equals `a` |
| ProductLinearity.ScalarFactor | multivector3d/Multivector.py:68-95 | the number branch of `*` gives the same result as the geometric product by the scalar-only multivector holding that number, on the right and on the left |
| ProductLinearity.GeoMulAddLeft | multivector3d/Multivector.py:75-95 | `(a + b)*c == a*c + b*c` |
| ProductLinearity.GeoMulAddRight | multivector3d/Multivector.py:75-95 | `a*(b + c) == a*b + a*c` |
| ProductLinearity.GeoMulScaleLeft | multivector3d/Multivector.py:68-95 | `(a*k)*c == (a*c)*k` for a number `k` |
| Associativity.GeoMulAssociative | multivector3d/Multivector.py:75-95 | the geometric product is associative: `(a*b)*c == a*(b*c)` for all multivectors |
| Associativity.GeoMulScaleRight | multivector3d/Multivector.py:68-95 | `a*(c*k) == (a*c)*k` for a number `k` |
| MultivectorLaws.BasisSquares | multivector3d/Multivector.py:75-95 | `E1*E1`, `E2*E2` and `E3*E3` are each the scalar 1 |
| MultivectorLaws.BasisBivectors | multivector3d/Multivector.py:75-95 | `E1*E2` is the bivector (0,0,1), that is e1e2; `E2*E3` is e2e3 and `E3*E1` is e3e1 |
| MultivectorLaws.BivectorTimesVector | multivector3d/Multivector.py:75-95 | a pure bivector `B` times a pure vector `w` is the vector `w x B` plus the pseudoscalar `B.w` |
| MultivectorLaws.BasisTriple | multivector3d/Multivector.py:15-16 | `E1*E2*E3` is the multivector with pseudoscalar part 1 and every other part zero, so the pseudoscalar part is the coefficient of e1e2e3 |
| MultivectorLaws.BasisAnticommute | multivector3d/Multivector.py:75-95 | `E2*E1 == (E1*E2)*(-1)`, and likewise for the other two pairs |
| MultivectorLaws.VectorProduct | multivector3d/Multivector.py:75-95 | the product of two pure vectors is their Euclidean inner product plus the bivector of their cross product |
| MultivectorLaws.VectorsAnticommute | multivector3d/Multivector.py:75-95 | two pure vectors anticommute if and only if they are orthogonal; a pure vector squares to its squared length |
| MultivectorLaws.ScalarVectorTimesVector | multivector3d/Multivector.py:75-95 | for a scalar `s` and pure vectors `u` and `w`, `(s + u)*w` is the inner product of `u` and `w`, plus `s*w`, plus the bivector of their cross product |
| MultivectorLaws.ScalarPlusVectorTimesVector | multivector3d/Multivector.py:75-95 | `(1 + e1)*e2 == e2 + e1e2` |
| MultivectorLaws.DotSymmetric | multivector3d/Multivector.py:104-108 | `a.dot(b) == b.dot(a)` |
| MultivectorLaws.WedgeAntisymmetric | multivector3d/Multivector.py:110-114 | `a ^ b == (b ^ a)*(-1)` |
| MultivectorLaws.DotPlusWedge | multivector3d/Multivector.py:104-114 | `a.dot(b) + (a ^ b) == a*b` |
| MultivectorLaws.DotOfVectors | multivector3d/Multivector.py:104-108 | for pure vectors, `dot` is the pure scalar of their Euclidean inner product |
| MultivectorLaws.WedgeOfVectors | multivector3d/Multivector.py:110-114 | for pure vectors, `^` is the pure bivector of their cross product in the e2e3, e3e1, e1e2 basis |
| MultivectorLaws.DotExample | multivector3d/Multivector.py:104-108 | (1,2,3) dot (4,5,6) is the scalar 32 |
| MultivectorLaws.WedgeExample | multivector3d/Multivector.py:110-114 | (1,2,3) ^ (4,5,6) is the bivector (-3,6,-3) |
| MultivectorLaws.PseudoscalarSquare | multivector3d/Multivector.py:75-77 | the unit pseudoscalar squares to the scalar -1 |
| MultivectorLaws.DualGrades | multivector3d/Multivector.py:116-118 | the dual of a pure scalar `k` is the pure pseudoscalar `k`; the dual of a pure vector is the pure bivector with the same components |
| MultivectorLaws.DualTwice | multivector3d/Multivector.py:116-118 | `~~a == a*(-1)` |

## Left out

- Floating point: the parts are exact reals, so every law holds exactly. With
  float arguments the source computes in IEEE-754 doubles, where the same
  laws hold only up to rounding, and NaN and infinities are possible.
- Fixed-width integers: integer list arguments (`vector=[1, 2, 3]`,
  lines 34-35) become numpy int64 arrays, and `np.dot`, `np.cross` and array
  `+` and `*` on them wrap around modulo 2^64. For example, with
  `m = Multivector3D(vector=[2**32, 0, 0])` the scalar part of `m*m` is 0 in
  the source, where the model gives 2^64. The model's parts are unbounded reals and do not wrap.
- numpy: the `np.array` conversion of list arguments and shape checks are not
  modelled. `np.dot` and `np.cross` on length-3 arrays are written out as
  `Dot3` and `Cross3`.
- `__repr__` (lines 120-123): display text only.
- Operands other than `int`, `float` (with their subclasses, such as `bool`
  and numpy's `float64`) and `Multivector3D`: strings, `complex`,
  `fractions.Fraction`, `decimal.Decimal`, numpy integer scalars and so on. A right operand of `*` of that kind falls into
  the geometric-product branch (line 75) and fails with an attribute error.
  A divisor of that kind is rejected by `/` with the same `ValueError` as a
  multivector divisor (lines 99-102). The model's `Operand` has only the two
  supported kinds, and the code has no dedicated invalid-operand error.
- `k * a` with the number on the left: the class has no `__rmul__`, so Python
  raises a type error. Nothing models it.
- Equality and negation: the class defines neither `__eq__` nor `__neg__`. The
  laws use Dafny's structural equality of values, and write negation as
  scaling by -1, which is how `__sub__` itself negates.
- The exceptions become values. `ZeroDivision` stands for the
  `ZeroDivisionError` that `1/other` raises (line 100). `NotANumber` stands
  for the `ValueError` that line 102 raises for every divisor that is not a
  number, a `Multivector3D` included.
- `Add`, `ScaleMul`, `GeoMul` with its four grades, `Dot` and `Wedge` carry
  no `ensures` of their own; their laws are the lemmas named in their rows
  above.
- `setup.py`: packaging metadata only.
