/**
 * Algebraic laws of the multivector operators: the additive group, the two
 * branches of `*`, division, the basis products, the reduction of `dot` and
 * the wedge to the Euclidean dot and cross products, and the dual.
 */
module MultivectorLaws {
  import opened Vectors
  import opened Multivector
  import opened ProductLinearity

  /** The all-zero multivector that the default constructor builds. */
  const Zero: Multivector3D := Multivector3D()

  function Vector(u: Vec3): Multivector3D {
    Multivector3D(vector := u)
  }

  // ---------------------------------------------------------------- addition

  lemma AddCommutative(a: Multivector3D, b: Multivector3D)
    ensures Add(a, b) == Add(b, a)
  {
  }

  lemma AddAssociative(a: Multivector3D, b: Multivector3D, c: Multivector3D)
    ensures Add(Add(a, b), c) == Add(a, Add(b, c))
  {
  }

  /** The default-constructed multivector is the identity of addition. */
  lemma AddIdentity(a: Multivector3D)
    ensures Add(a, Zero) == a && Add(Zero, a) == a
  {
  }

  lemma SubSelf(a: Multivector3D)
    ensures Sub(a, a) == Zero
  {
  }

  // -------------------------------------------------------- multiplication

  /** Scaling distributes over a sum of multivectors. */
  lemma ScaleMulAdd(a: Multivector3D, b: Multivector3D, k: real)
    ensures ScaleMul(Add(a, b), k) == Add(ScaleMul(a, k), ScaleMul(b, k))
  {
    var sk := Multivector3D(scalar := k);
    calc {
      ScaleMul(Add(a, b), k);
    == { ScalarFactor(Add(a, b), k); }
      GeoMul(Add(a, b), sk);
    == { GeoMulAddLeft(a, b, sk); }
      Add(GeoMul(a, sk), GeoMul(b, sk));
    == { ScalarFactor(a, k); ScalarFactor(b, k); }
      Add(ScaleMul(a, k), ScaleMul(b, k));
    }
  }

  // ---------------------------------------------------------------- division

  /** Dividing a scaled multivector by the same non-zero number undoes the scaling. */
  lemma DivUndoesScale(a: Multivector3D, k: real)
    requires k != 0.0
    ensures Div(ScaleMul(a, k), Number(k)) == Ok(a)
  {
    var r := 1.0 / k;
    assert k * r == 1.0;
    ScaleMulCompose(a, k, r);
    ScaleMulOne(a);
  }

  // -------------------------------------------------------- basis products

  /** Each basis vector squares to one. */
  lemma BasisSquares()
    ensures GeoMul(E1, E1) == Multivector3D(scalar := 1.0)
    ensures GeoMul(E2, E2) == Multivector3D(scalar := 1.0)
    ensures GeoMul(E3, E3) == Multivector3D(scalar := 1.0)
  {
    ProductE1E1();
    ProductE2E2();
    ProductE3E3();
  }

  /** e1 e2 = e1e2, e2 e3 = e2e3 and e3 e1 = e3e1, in the cyclic bivector basis. */
  lemma BasisBivectors()
    ensures GeoMul(E1, E2) == Multivector3D(bivector := Vec3(0.0, 0.0, 1.0))
    ensures GeoMul(E2, E3) == Multivector3D(bivector := Vec3(1.0, 0.0, 0.0))
    ensures GeoMul(E3, E1) == Multivector3D(bivector := Vec3(0.0, 1.0, 0.0))
  {
    ProductE1E2();
    ProductE2E3();
    ProductE3E1();
  }

  /** Distinct basis vectors anticommute. */
  lemma BasisAnticommute()
    ensures GeoMul(E2, E1) == ScaleMul(GeoMul(E1, E2), -1.0)
    ensures GeoMul(E3, E2) == ScaleMul(GeoMul(E2, E3), -1.0)
    ensures GeoMul(E1, E3) == ScaleMul(GeoMul(E3, E1), -1.0)
  {
    AnticommuteE1E2();
    AnticommuteE2E3();
    AnticommuteE3E1();
  }

  lemma AnticommuteE1E2()
    ensures GeoMul(E2, E1) == ScaleMul(GeoMul(E1, E2), -1.0)
  {
    VectorsAnticommute(E2.vector, E1.vector);
  }

  lemma AnticommuteE2E3()
    ensures GeoMul(E3, E2) == ScaleMul(GeoMul(E2, E3), -1.0)
  {
    VectorsAnticommute(E3.vector, E2.vector);
  }

  lemma AnticommuteE3E1()
    ensures GeoMul(E1, E3) == ScaleMul(GeoMul(E3, E1), -1.0)
  {
    VectorsAnticommute(E1.vector, E3.vector);
  }

  // The nine products of two basis vectors, one fact each, from the
  // product of two pure vectors.

  lemma ProductE1E1()
    ensures GeoMul(E1, E1) == Multivector3D(scalar := 1.0)
  {
    VectorProduct(E1.vector, E1.vector);
  }

  lemma ProductE2E2()
    ensures GeoMul(E2, E2) == Multivector3D(scalar := 1.0)
  {
    VectorProduct(E2.vector, E2.vector);
  }

  lemma ProductE3E3()
    ensures GeoMul(E3, E3) == Multivector3D(scalar := 1.0)
  {
    VectorProduct(E3.vector, E3.vector);
  }

  lemma ProductE1E2()
    ensures GeoMul(E1, E2) == Multivector3D(bivector := Vec3(0.0, 0.0, 1.0))
  {
    VectorProduct(E1.vector, E2.vector);
  }

  lemma ProductE2E3()
    ensures GeoMul(E2, E3) == Multivector3D(bivector := Vec3(1.0, 0.0, 0.0))
  {
    VectorProduct(E2.vector, E3.vector);
  }

  lemma ProductE3E1()
    ensures GeoMul(E3, E1) == Multivector3D(bivector := Vec3(0.0, 1.0, 0.0))
  {
    VectorProduct(E3.vector, E1.vector);
  }

  /**
   * The product of two pure vectors is their inner product plus the bivector
   * of their cross product.
   */
  lemma VectorProduct(u: Vec3, w: Vec3)
    ensures GeoMul(Vector(u), Vector(w))
         == Multivector3D(scalar := Dot3(u, w), bivector := Cross3(u, w))
  {
  }

  /** Orthogonal vectors anticommute; every vector squares to its squared length. */
  lemma VectorsAnticommute(u: Vec3, w: Vec3)
    ensures Dot3(u, w) == 0.0 <==> GeoMul(Vector(u), Vector(w)) == ScaleMul(GeoMul(Vector(w), Vector(u)), -1.0)
    ensures GeoMul(Vector(u), Vector(u)) == Multivector3D(scalar := Dot3(u, u))
  {
  }

  /**
   * A pure bivector times a pure vector: the vector part is the cross product
   * of the vector with the bivector, the pseudoscalar part their dot product.
   */
  lemma BivectorTimesVector(bb: Vec3, w: Vec3)
    ensures GeoMul(Multivector3D(bivector := bb), Vector(w))
         == Multivector3D(vector := Cross3(w, bb), pscalar := Dot3(bb, w))
  {
  }

  /** The pseudoscalar part is the coefficient of e1e2e3: e1 e2 e3 is the unit pseudoscalar. */
  lemma BasisTriple()
    ensures GeoMul(GeoMul(E1, E2), E3) == UnitPseudoscalar
  {
    ProductE1E2();
    BivectorTimesVector(Vec3(0.0, 0.0, 1.0), E3.vector);
  }

  /** (s + u) w = s w + u.w + u^w, for a scalar s and pure vectors u and w. */
  lemma ScalarVectorTimesVector(s: real, u: Vec3, w: Vec3)
    ensures GeoMul(Multivector3D(scalar := s, vector := u), Vector(w))
         == Multivector3D(scalar := Dot3(u, w), vector := VScale(s, w), bivector := Cross3(u, w))
  {
  }

  /** (1 + e1) e2 = e2 + e1e2. */
  lemma ScalarPlusVectorTimesVector()
    ensures GeoMul(Multivector3D(scalar := 1.0, vector := Vec3(1.0, 0.0, 0.0)), E2)
         == Multivector3D(vector := Vec3(0.0, 1.0, 0.0), bivector := Vec3(0.0, 0.0, 1.0))
  {
    ScalarVectorTimesVector(1.0, Vec3(1.0, 0.0, 0.0), E2.vector);
  }

  // ------------------------------------------------------------ dot, wedge

  lemma DotSymmetric(a: Multivector3D, b: Multivector3D)
    ensures Dot(a, b) == Dot(b, a)
  {
  }

  lemma WedgeAntisymmetric(a: Multivector3D, b: Multivector3D)
    ensures Wedge(a, b) == ScaleMul(Wedge(b, a), -1.0)
  {
  }

  /** The geometric product splits into its symmetric and antisymmetric parts. */
  lemma DotPlusWedge(a: Multivector3D, b: Multivector3D)
    ensures Add(Dot(a, b), Wedge(a, b)) == GeoMul(a, b)
  {
  }

  /** For two pure vectors, `dot` is the pure scalar of their Euclidean inner product. */
  lemma DotOfVectors(u: Vec3, w: Vec3)
    ensures Dot(Vector(u), Vector(w)) == Multivector3D(scalar := Dot3(u, w))
  {
  }

  /** For two pure vectors, the wedge is the pure bivector of their cross product. */
  lemma WedgeOfVectors(u: Vec3, w: Vec3)
    ensures Wedge(Vector(u), Vector(w)) == Multivector3D(bivector := Cross3(u, w))
  {
  }

  /** (1, 2, 3) . (4, 5, 6) is the scalar 32. */
  lemma DotExample()
    ensures Dot(Vector(Vec3(1.0, 2.0, 3.0)), Vector(Vec3(4.0, 5.0, 6.0))) == Multivector3D(scalar := 32.0)
  {
    DotOfVectors(Vec3(1.0, 2.0, 3.0), Vec3(4.0, 5.0, 6.0));
  }

  /** (1, 2, 3) ^ (4, 5, 6) is the bivector of the cross product (-3, 6, -3). */
  lemma WedgeExample()
    ensures Wedge(Vector(Vec3(1.0, 2.0, 3.0)), Vector(Vec3(4.0, 5.0, 6.0)))
         == Multivector3D(bivector := Vec3(-3.0, 6.0, -3.0))
  {
    WedgeOfVectors(Vec3(1.0, 2.0, 3.0), Vec3(4.0, 5.0, 6.0));
  }

  // -------------------------------------------------------------------- dual

  lemma PseudoscalarSquare()
    ensures GeoMul(UnitPseudoscalar, UnitPseudoscalar) == Multivector3D(scalar := -1.0)
  {
    assert GeoMul(UnitPseudoscalar, UnitPseudoscalar) == Dual(UnitPseudoscalar);
  }

  lemma DualGrades(k: real, u: Vec3)
    ensures Dual(Multivector3D(scalar := k)) == Multivector3D(pscalar := k)
    ensures Dual(Vector(u)) == Multivector3D(bivector := u)
  {
    DualOfScalar(k);
    DualOfVector(u);
  }

  lemma DualOfScalar(k: real)
    ensures Dual(Multivector3D(scalar := k)) == Multivector3D(pscalar := k)
  {
    DualParts(Multivector3D(scalar := k), k, Vec3(0.0, 0.0, 0.0), Vec3(0.0, 0.0, 0.0), 0.0);
  }

  lemma DualOfVector(u: Vec3)
    ensures Dual(Vector(u)) == Multivector3D(bivector := u)
  {
    DualParts(Vector(u), 0.0, u, Vec3(0.0, 0.0, 0.0), 0.0);
  }

  /** The closed form of the dual, for a multivector given by its parts. */
  lemma DualParts(m: Multivector3D, s: real, v: Vec3, b: Vec3, p: real)
    requires m == Multivector3D(s, v, b, p)
    ensures Dual(m) == Multivector3D(-p, VScale(-1.0, b), v, s)
  {
  }

  /** Taking the dual twice negates every part. */
  lemma DualTwice(a: Multivector3D)
    ensures Dual(Dual(a)) == ScaleMul(a, -1.0)
  {
  }
}
