/**
 * Linearity of the geometric product: it distributes over addition on
 * either side, and a number factor on its left operand can be moved out.
 * For the number factor, the vector and bivector grades are done one
 * component at a time, by unfolding the closed form, moving k out of each
 * cross product, and regrouping the products with a lemma about plain reals.
 */
module ProductLinearity {
  import opened Vectors
  import opened Multivector

  /** The product distributes over a sum on its left: (a + b) c == a c + b c. */
  lemma GeoMulAddLeft(a: Multivector3D, b: Multivector3D, c: Multivector3D)
    ensures GeoMul(Add(a, b), c) == Add(GeoMul(a, c), GeoMul(b, c))
  {
    ProductScalarAddLeft(a, b, c);
    ProductVectorAddLeft(a, b, c);
    ProductBivectorAddLeft(a, b, c);
    ProductPscalarAddLeft(a, b, c);
  }

  /** The product distributes over a sum on its right: a (b + c) == a b + a c. */
  lemma GeoMulAddRight(a: Multivector3D, b: Multivector3D, c: Multivector3D)
    ensures GeoMul(a, Add(b, c)) == Add(GeoMul(a, b), GeoMul(a, c))
  {
    ProductScalarAddRight(a, b, c);
    ProductVectorAddRight(a, b, c);
    ProductBivectorAddRight(a, b, c);
    ProductPscalarAddRight(a, b, c);
  }

  lemma ProductScalarAddLeft(a: Multivector3D, b: Multivector3D, c: Multivector3D)
    ensures ProductScalar(Add(a, b), c) == ProductScalar(a, c) + ProductScalar(b, c)
  {
  }

  lemma ProductVectorAddLeft(a: Multivector3D, b: Multivector3D, c: Multivector3D)
    ensures ProductVector(Add(a, b), c) == VAdd(ProductVector(a, c), ProductVector(b, c))
  {
  }

  lemma ProductBivectorAddLeft(a: Multivector3D, b: Multivector3D, c: Multivector3D)
    ensures ProductBivector(Add(a, b), c) == VAdd(ProductBivector(a, c), ProductBivector(b, c))
  {
  }

  lemma ProductPscalarAddLeft(a: Multivector3D, b: Multivector3D, c: Multivector3D)
    ensures ProductPscalar(Add(a, b), c) == ProductPscalar(a, c) + ProductPscalar(b, c)
  {
  }

  lemma ProductScalarAddRight(a: Multivector3D, b: Multivector3D, c: Multivector3D)
    ensures ProductScalar(a, Add(b, c)) == ProductScalar(a, b) + ProductScalar(a, c)
  {
  }

  lemma ProductVectorAddRight(a: Multivector3D, b: Multivector3D, c: Multivector3D)
    ensures ProductVector(a, Add(b, c)) == VAdd(ProductVector(a, b), ProductVector(a, c))
  {
  }

  lemma ProductBivectorAddRight(a: Multivector3D, b: Multivector3D, c: Multivector3D)
    ensures ProductBivector(a, Add(b, c)) == VAdd(ProductBivector(a, b), ProductBivector(a, c))
  {
  }

  lemma ProductPscalarAddRight(a: Multivector3D, b: Multivector3D, c: Multivector3D)
    ensures ProductPscalar(a, Add(b, c)) == ProductPscalar(a, b) + ProductPscalar(a, c)
  {
  }

  /**
   * Scaling by a number is the geometric product with the scalar-only
   * multivector holding that number, on either side.
   */
  lemma ScalarFactor(a: Multivector3D, k: real)
    ensures GeoMul(a, Multivector3D(scalar := k)) == ScaleMul(a, k)
    ensures GeoMul(Multivector3D(scalar := k), a) == ScaleMul(a, k)
  {
  }

  /** Scaling the left operand scales the product: (a k) c == (a c) k. */
  lemma GeoMulScaleLeft(a: Multivector3D, k: real, c: Multivector3D)
    ensures GeoMul(ScaleMul(a, k), c) == ScaleMul(GeoMul(a, c), k)
  {
    ProductScalarScaleLeft(a, k, c);
    ProductVectorScaleLeft(a, k, c);
    ProductBivectorScaleLeft(a, k, c);
    ProductPscalarScaleLeft(a, k, c);
    ScaleMulGrades(a, k, c);
  }

  /** The product scaled by k, grade by grade. */
  lemma ScaleMulGrades(a: Multivector3D, k: real, c: Multivector3D)
    ensures ScaleMul(GeoMul(a, c), k)
         == Multivector3D(k * ProductScalar(a, c), VScale(k, ProductVector(a, c)), VScale(k, ProductBivector(a, c)),
                          k * ProductPscalar(a, c))
  {
    ScaleMulParts(GeoMul(a, c), k, ProductScalar(a, c), ProductVector(a, c), ProductBivector(a, c), ProductPscalar(a, c));
  }

  lemma ScaleMulParts(m: Multivector3D, k: real, s: real, v: Vec3, b: Vec3, p: real)
    requires m == Multivector3D(s, v, b, p)
    ensures ScaleMul(m, k) == Multivector3D(k * s, VScale(k, v), VScale(k, b), k * p)
  {
  }

  lemma ProductVectorScaleLeft(a: Multivector3D, k: real, c: Multivector3D)
    ensures ProductVector(ScaleMul(a, k), c) == VScale(k, ProductVector(a, c))
  {
    ProductVectorScaleLeftX(a, k, c);
    ProductVectorScaleLeftY(a, k, c);
    ProductVectorScaleLeftZ(a, k, c);
    Vec3Equal(ProductVector(ScaleMul(a, k), c), VScale(k, ProductVector(a, c)));
  }

  lemma ProductBivectorScaleLeft(a: Multivector3D, k: real, c: Multivector3D)
    ensures ProductBivector(ScaleMul(a, k), c) == VScale(k, ProductBivector(a, c))
  {
    ProductBivectorScaleLeftX(a, k, c);
    ProductBivectorScaleLeftY(a, k, c);
    ProductBivectorScaleLeftZ(a, k, c);
    Vec3Equal(ProductBivector(ScaleMul(a, k), c), VScale(k, ProductBivector(a, c)));
  }

  lemma ProductScalarScaleLeft(a: Multivector3D, k: real, c: Multivector3D)
    ensures ProductScalar(ScaleMul(a, k), c) == k * ProductScalar(a, c)
  {
    var u, w, v, z := a.vector, c.vector, a.bivector, c.bivector;
    calc {
      ProductScalar(ScaleMul(a, k), c);
    == { ProductScalarParts(ScaleMul(a, k), c); }
      (k * a.scalar) * c.scalar - (k * a.pscalar) * c.pscalar
        + ((k * u.x) * w.x + (k * u.y) * w.y + (k * u.z) * w.z)
        - ((k * v.x) * z.x + (k * v.y) * z.y + (k * v.z) * z.z);
    == { ScaleScalarTerms(k, a.scalar, c.scalar, a.pscalar, c.pscalar, u.x, u.y, u.z, w.x, w.y, w.z,
                          v.x, v.y, v.z, z.x, z.y, z.z); }
      k * (a.scalar * c.scalar - a.pscalar * c.pscalar
           + (u.x * w.x + u.y * w.y + u.z * w.z) - (v.x * z.x + v.y * z.y + v.z * z.z));
    == { ProductScalarParts(a, c); }
      k * ProductScalar(a, c);
    }
  }

  lemma ProductPscalarScaleLeft(a: Multivector3D, k: real, c: Multivector3D)
    ensures ProductPscalar(ScaleMul(a, k), c) == k * ProductPscalar(a, c)
  {
    var u, w, v, z := a.vector, c.bivector, a.bivector, c.vector;
    calc {
      ProductPscalar(ScaleMul(a, k), c);
    == { ProductPscalarParts(ScaleMul(a, k), c); }
      (k * a.scalar) * c.pscalar + (k * a.pscalar) * c.scalar
        + ((k * u.x) * w.x + (k * u.y) * w.y + (k * u.z) * w.z)
        + ((k * v.x) * z.x + (k * v.y) * z.y + (k * v.z) * z.z);
    == { ScalePscalarTerms(k, a.scalar, c.pscalar, a.pscalar, c.scalar, u.x, u.y, u.z, w.x, w.y, w.z,
                           v.x, v.y, v.z, z.x, z.y, z.z); }
      k * (a.scalar * c.pscalar + a.pscalar * c.scalar
           + (u.x * w.x + u.y * w.y + u.z * w.z) + (v.x * z.x + v.y * z.y + v.z * z.z));
    == { ProductPscalarParts(a, c); }
      k * ProductPscalar(a, c);
    }
  }

  /** The scalar grade of the product with both dot products written out. */
  lemma ProductScalarParts(a: Multivector3D, c: Multivector3D)
    ensures ProductScalar(a, c)
         == a.scalar * c.scalar - a.pscalar * c.pscalar
            + (a.vector.x * c.vector.x + a.vector.y * c.vector.y + a.vector.z * c.vector.z)
            - (a.bivector.x * c.bivector.x + a.bivector.y * c.bivector.y + a.bivector.z * c.bivector.z)
  {
  }

  /** The pseudoscalar grade of the product with both dot products written out. */
  lemma ProductPscalarParts(a: Multivector3D, c: Multivector3D)
    ensures ProductPscalar(a, c)
         == a.scalar * c.pscalar + a.pscalar * c.scalar
            + (a.vector.x * c.bivector.x + a.vector.y * c.bivector.y + a.vector.z * c.bivector.z)
            + (a.bivector.x * c.vector.x + a.bivector.y * c.vector.y + a.bivector.z * c.vector.z)
  {
  }

  /** Moving k out of the scalar grade, as plain reals. */
  lemma ScaleScalarTerms(k: real, s1: real, s2: real, p1: real, p2: real,
                         v1x: real, v1y: real, v1z: real, v2x: real, v2y: real, v2z: real,
                         b1x: real, b1y: real, b1z: real, b2x: real, b2y: real, b2z: real)
    ensures (k * s1) * s2 - (k * p1) * p2 + ((k * v1x) * v2x + (k * v1y) * v2y + (k * v1z) * v2z)
              - ((k * b1x) * b2x + (k * b1y) * b2y + (k * b1z) * b2z)
         == k * (s1 * s2 - p1 * p2 + (v1x * v2x + v1y * v2y + v1z * v2z) - (b1x * b2x + b1y * b2y + b1z * b2z))
  {
  }

  /** Moving k out of the pseudoscalar grade, as plain reals. */
  lemma ScalePscalarTerms(k: real, s1: real, s2: real, p1: real, p2: real,
                          v1x: real, v1y: real, v1z: real, v2x: real, v2y: real, v2z: real,
                          b1x: real, b1y: real, b1z: real, b2x: real, b2y: real, b2z: real)
    ensures (k * s1) * s2 + (k * p1) * p2 + ((k * v1x) * v2x + (k * v1y) * v2y + (k * v1z) * v2z)
              + ((k * b1x) * b2x + (k * b1y) * b2y + (k * b1z) * b2z)
         == k * (s1 * s2 + p1 * p2 + (v1x * v2x + v1y * v2y + v1z * v2z) + (b1x * b2x + b1y * b2y + b1z * b2z))
  {
  }

  /** The vector grade of the product, component by component. */
  lemma ProductVectorParts(a: Multivector3D, c: Multivector3D)
    ensures ProductVector(a, c).x
         == a.scalar * c.vector.x + c.scalar * a.vector.x - a.pscalar * c.bivector.x - c.pscalar * a.bivector.x
            - Cross3(a.vector, c.bivector).x + Cross3(c.vector, a.bivector).x
    ensures ProductVector(a, c).y
         == a.scalar * c.vector.y + c.scalar * a.vector.y - a.pscalar * c.bivector.y - c.pscalar * a.bivector.y
            - Cross3(a.vector, c.bivector).y + Cross3(c.vector, a.bivector).y
    ensures ProductVector(a, c).z
         == a.scalar * c.vector.z + c.scalar * a.vector.z - a.pscalar * c.bivector.z - c.pscalar * a.bivector.z
            - Cross3(a.vector, c.bivector).z + Cross3(c.vector, a.bivector).z
  {
  }

  /** The bivector grade of the product, component by component. */
  lemma ProductBivectorParts(a: Multivector3D, c: Multivector3D)
    ensures ProductBivector(a, c).x
         == a.scalar * c.bivector.x + c.scalar * a.bivector.x + c.pscalar * a.vector.x + a.pscalar * c.vector.x
            + Cross3(a.vector, c.vector).x - Cross3(a.bivector, c.bivector).x
    ensures ProductBivector(a, c).y
         == a.scalar * c.bivector.y + c.scalar * a.bivector.y + c.pscalar * a.vector.y + a.pscalar * c.vector.y
            + Cross3(a.vector, c.vector).y - Cross3(a.bivector, c.bivector).y
    ensures ProductBivector(a, c).z
         == a.scalar * c.bivector.z + c.scalar * a.bivector.z + c.pscalar * a.vector.z + a.pscalar * c.vector.z
            + Cross3(a.vector, c.vector).z - Cross3(a.bivector, c.bivector).z
  {
  }

  /** Moving k out of one component of the vector grade, as plain reals. */
  lemma ScaleVectorTerms(k: real, s1: real, v2: real, s2: real, v1: real, p1: real, b2: real, p2: real, b1: real,
                         x: real, y: real)
    ensures (k * s1) * v2 + s2 * (k * v1) - (k * p1) * b2 - p2 * (k * b1) - k * x + k * y
         == k * (s1 * v2 + s2 * v1 - p1 * b2 - p2 * b1 - x + y)
  {
  }

  /** Moving k out of one component of the bivector grade, as plain reals. */
  lemma ScaleBivectorTerms(k: real, s1: real, b2: real, s2: real, b1: real, p2: real, v1: real, p1: real, v2: real,
                           x: real, y: real)
    ensures (k * s1) * b2 + s2 * (k * b1) + p2 * (k * v1) + (k * p1) * v2 + k * x - k * y
         == k * (s1 * b2 + s2 * b1 + p2 * v1 + p1 * v2 + x - y)
  {
  }

  lemma ProductVectorScaleLeftX(a: Multivector3D, k: real, c: Multivector3D)
    ensures ProductVector(ScaleMul(a, k), c).x == k * ProductVector(a, c).x
  {
    var ak := ScaleMul(a, k);
    var x, y := Cross3(a.vector, c.bivector).x, Cross3(c.vector, a.bivector).x;
    calc {
      ProductVector(ak, c).x;
    == { ProductVectorParts(ak, c); }
      ak.scalar * c.vector.x + c.scalar * ak.vector.x - ak.pscalar * c.bivector.x - c.pscalar * ak.bivector.x
        - Cross3(ak.vector, c.bivector).x + Cross3(c.vector, ak.bivector).x;
    == { Cross3ScaleLeftX(k, a.vector, c.bivector); Cross3ScaleRightX(k, c.vector, a.bivector); }
      (k * a.scalar) * c.vector.x + c.scalar * (k * a.vector.x) - (k * a.pscalar) * c.bivector.x - c.pscalar * (k * a.bivector.x)
        - k * x + k * y;
    == { ScaleVectorTerms(k, a.scalar, c.vector.x, c.scalar, a.vector.x, a.pscalar, c.bivector.x, c.pscalar, a.bivector.x, x, y); }
      k * (a.scalar * c.vector.x + c.scalar * a.vector.x - a.pscalar * c.bivector.x - c.pscalar * a.bivector.x - x + y);
    == { ProductVectorParts(a, c); }
      k * ProductVector(a, c).x;
    }
  }

  lemma ProductBivectorScaleLeftX(a: Multivector3D, k: real, c: Multivector3D)
    ensures ProductBivector(ScaleMul(a, k), c).x == k * ProductBivector(a, c).x
  {
    var ak := ScaleMul(a, k);
    var x, y := Cross3(a.vector, c.vector).x, Cross3(a.bivector, c.bivector).x;
    calc {
      ProductBivector(ak, c).x;
    == { ProductBivectorParts(ak, c); }
      ak.scalar * c.bivector.x + c.scalar * ak.bivector.x + c.pscalar * ak.vector.x + ak.pscalar * c.vector.x
        + Cross3(ak.vector, c.vector).x - Cross3(ak.bivector, c.bivector).x;
    == { Cross3ScaleLeftX(k, a.vector, c.vector); Cross3ScaleLeftX(k, a.bivector, c.bivector); }
      (k * a.scalar) * c.bivector.x + c.scalar * (k * a.bivector.x) + c.pscalar * (k * a.vector.x) + (k * a.pscalar) * c.vector.x
        + k * x - k * y;
    == { ScaleBivectorTerms(k, a.scalar, c.bivector.x, c.scalar, a.bivector.x, c.pscalar, a.vector.x, a.pscalar, c.vector.x, x, y); }
      k * (a.scalar * c.bivector.x + c.scalar * a.bivector.x + c.pscalar * a.vector.x + a.pscalar * c.vector.x + x - y);
    == { ProductBivectorParts(a, c); }
      k * ProductBivector(a, c).x;
    }
  }

  lemma ProductVectorScaleLeftY(a: Multivector3D, k: real, c: Multivector3D)
    ensures ProductVector(ScaleMul(a, k), c).y == k * ProductVector(a, c).y
  {
    var ak := ScaleMul(a, k);
    var x, y := Cross3(a.vector, c.bivector).y, Cross3(c.vector, a.bivector).y;
    calc {
      ProductVector(ak, c).y;
    == { ProductVectorParts(ak, c); }
      ak.scalar * c.vector.y + c.scalar * ak.vector.y - ak.pscalar * c.bivector.y - c.pscalar * ak.bivector.y
        - Cross3(ak.vector, c.bivector).y + Cross3(c.vector, ak.bivector).y;
    == { Cross3ScaleLeftY(k, a.vector, c.bivector); Cross3ScaleRightY(k, c.vector, a.bivector); }
      (k * a.scalar) * c.vector.y + c.scalar * (k * a.vector.y) - (k * a.pscalar) * c.bivector.y - c.pscalar * (k * a.bivector.y)
        - k * x + k * y;
    == { ScaleVectorTerms(k, a.scalar, c.vector.y, c.scalar, a.vector.y, a.pscalar, c.bivector.y, c.pscalar, a.bivector.y, x, y); }
      k * (a.scalar * c.vector.y + c.scalar * a.vector.y - a.pscalar * c.bivector.y - c.pscalar * a.bivector.y - x + y);
    == { ProductVectorParts(a, c); }
      k * ProductVector(a, c).y;
    }
  }

  lemma ProductBivectorScaleLeftY(a: Multivector3D, k: real, c: Multivector3D)
    ensures ProductBivector(ScaleMul(a, k), c).y == k * ProductBivector(a, c).y
  {
    var ak := ScaleMul(a, k);
    var x, y := Cross3(a.vector, c.vector).y, Cross3(a.bivector, c.bivector).y;
    calc {
      ProductBivector(ak, c).y;
    == { ProductBivectorParts(ak, c); }
      ak.scalar * c.bivector.y + c.scalar * ak.bivector.y + c.pscalar * ak.vector.y + ak.pscalar * c.vector.y
        + Cross3(ak.vector, c.vector).y - Cross3(ak.bivector, c.bivector).y;
    == { Cross3ScaleLeftY(k, a.vector, c.vector); Cross3ScaleLeftY(k, a.bivector, c.bivector); }
      (k * a.scalar) * c.bivector.y + c.scalar * (k * a.bivector.y) + c.pscalar * (k * a.vector.y) + (k * a.pscalar) * c.vector.y
        + k * x - k * y;
    == { ScaleBivectorTerms(k, a.scalar, c.bivector.y, c.scalar, a.bivector.y, c.pscalar, a.vector.y, a.pscalar, c.vector.y, x, y); }
      k * (a.scalar * c.bivector.y + c.scalar * a.bivector.y + c.pscalar * a.vector.y + a.pscalar * c.vector.y + x - y);
    == { ProductBivectorParts(a, c); }
      k * ProductBivector(a, c).y;
    }
  }

  lemma ProductVectorScaleLeftZ(a: Multivector3D, k: real, c: Multivector3D)
    ensures ProductVector(ScaleMul(a, k), c).z == k * ProductVector(a, c).z
  {
    var ak := ScaleMul(a, k);
    var x, y := Cross3(a.vector, c.bivector).z, Cross3(c.vector, a.bivector).z;
    calc {
      ProductVector(ak, c).z;
    == { ProductVectorParts(ak, c); }
      ak.scalar * c.vector.z + c.scalar * ak.vector.z - ak.pscalar * c.bivector.z - c.pscalar * ak.bivector.z
        - Cross3(ak.vector, c.bivector).z + Cross3(c.vector, ak.bivector).z;
    == { Cross3ScaleLeftZ(k, a.vector, c.bivector); Cross3ScaleRightZ(k, c.vector, a.bivector); }
      (k * a.scalar) * c.vector.z + c.scalar * (k * a.vector.z) - (k * a.pscalar) * c.bivector.z - c.pscalar * (k * a.bivector.z)
        - k * x + k * y;
    == { ScaleVectorTerms(k, a.scalar, c.vector.z, c.scalar, a.vector.z, a.pscalar, c.bivector.z, c.pscalar, a.bivector.z, x, y); }
      k * (a.scalar * c.vector.z + c.scalar * a.vector.z - a.pscalar * c.bivector.z - c.pscalar * a.bivector.z - x + y);
    == { ProductVectorParts(a, c); }
      k * ProductVector(a, c).z;
    }
  }

  lemma ProductBivectorScaleLeftZ(a: Multivector3D, k: real, c: Multivector3D)
    ensures ProductBivector(ScaleMul(a, k), c).z == k * ProductBivector(a, c).z
  {
    var ak := ScaleMul(a, k);
    var x, y := Cross3(a.vector, c.vector).z, Cross3(a.bivector, c.bivector).z;
    calc {
      ProductBivector(ak, c).z;
    == { ProductBivectorParts(ak, c); }
      ak.scalar * c.bivector.z + c.scalar * ak.bivector.z + c.pscalar * ak.vector.z + ak.pscalar * c.vector.z
        + Cross3(ak.vector, c.vector).z - Cross3(ak.bivector, c.bivector).z;
    == { Cross3ScaleLeftZ(k, a.vector, c.vector); Cross3ScaleLeftZ(k, a.bivector, c.bivector); }
      (k * a.scalar) * c.bivector.z + c.scalar * (k * a.bivector.z) + c.pscalar * (k * a.vector.z) + (k * a.pscalar) * c.vector.z
        + k * x - k * y;
    == { ScaleBivectorTerms(k, a.scalar, c.bivector.z, c.scalar, a.bivector.z, c.pscalar, a.vector.z, a.pscalar, c.vector.z, x, y); }
      k * (a.scalar * c.bivector.z + c.scalar * a.bivector.z + c.pscalar * a.vector.z + a.pscalar * c.vector.z + x - y);
    == { ProductBivectorParts(a, c); }
      k * ProductBivector(a, c).z;
    }
  }
}
