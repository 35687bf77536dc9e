/**
 * Associativity of the geometric product.  The product is linear in its
 * left operand, so the left operands a for which (a b) c == a (b c) holds
 * for all b and c are closed under sums and under scaling.  The law holds
 * for each of the eight unit blades, and every multivector is a combination
 * of those blades.
 */
module Associativity {
  import opened Vectors
  import opened Multivector
  import opened ProductLinearity

  ghost predicate Associates(a: Multivector3D, b: Multivector3D, c: Multivector3D) {
    GeoMul(GeoMul(a, b), c) == GeoMul(a, GeoMul(b, c))
  }

  /** The unit blades not already named: 1, e2e3, e3e1 and e1e2. */
  const One: Multivector3D := Multivector3D(scalar := 1.0)
  const E23: Multivector3D := Multivector3D(bivector := Vec3(1.0, 0.0, 0.0))
  const E31: Multivector3D := Multivector3D(bivector := Vec3(0.0, 1.0, 0.0))
  const E12: Multivector3D := Multivector3D(bivector := Vec3(0.0, 0.0, 1.0))

  /** The geometric product is associative. */
  lemma GeoMulAssociative(a: Multivector3D, b: Multivector3D, c: Multivector3D)
    ensures GeoMul(GeoMul(a, b), c) == GeoMul(a, GeoMul(b, c))
  {
    var s := ScaleMul(One, a.scalar);
    var v := Add(Add(ScaleMul(E1, a.vector.x), ScaleMul(E2, a.vector.y)), ScaleMul(E3, a.vector.z));
    var w := Add(Add(ScaleMul(E23, a.bivector.x), ScaleMul(E31, a.bivector.y)), ScaleMul(E12, a.bivector.z));
    var p := ScaleMul(UnitPseudoscalar, a.pscalar);
    BladeDecomposition(a);
    assert a == Add(Add(Add(s, v), w), p);

    OneAssociates(b, c);
    AssociatesScale(One, a.scalar, b, c);
    E1Associates(b, c);
    AssociatesScale(E1, a.vector.x, b, c);
    E2Associates(b, c);
    AssociatesScale(E2, a.vector.y, b, c);
    E3Associates(b, c);
    AssociatesScale(E3, a.vector.z, b, c);
    AssociatesAdd(ScaleMul(E1, a.vector.x), ScaleMul(E2, a.vector.y), b, c);
    AssociatesAdd(Add(ScaleMul(E1, a.vector.x), ScaleMul(E2, a.vector.y)), ScaleMul(E3, a.vector.z), b, c);
    E23Associates(b, c);
    AssociatesScale(E23, a.bivector.x, b, c);
    E31Associates(b, c);
    AssociatesScale(E31, a.bivector.y, b, c);
    E12Associates(b, c);
    AssociatesScale(E12, a.bivector.z, b, c);
    AssociatesAdd(ScaleMul(E23, a.bivector.x), ScaleMul(E31, a.bivector.y), b, c);
    AssociatesAdd(Add(ScaleMul(E23, a.bivector.x), ScaleMul(E31, a.bivector.y)), ScaleMul(E12, a.bivector.z), b, c);
    PseudoscalarAssociates(b, c);
    AssociatesScale(UnitPseudoscalar, a.pscalar, b, c);
    AssociatesAdd(s, v, b, c);
    AssociatesAdd(Add(s, v), w, b, c);
    AssociatesAdd(Add(Add(s, v), w), p, b, c);
  }

  /** Scaling the right operand scales the product: a (c k) == (a c) k. */
  lemma GeoMulScaleRight(a: Multivector3D, c: Multivector3D, k: real)
    ensures GeoMul(a, ScaleMul(c, k)) == ScaleMul(GeoMul(a, c), k)
  {
    var sk := Multivector3D(scalar := k);
    calc {
      GeoMul(a, ScaleMul(c, k));
    == { ScalarFactor(c, k); }
      GeoMul(a, GeoMul(sk, c));
    == { GeoMulAssociative(a, sk, c); }
      GeoMul(GeoMul(a, sk), c);
    == { ScalarFactor(a, k); }
      GeoMul(ScaleMul(a, k), c);
    == { GeoMulScaleLeft(a, k, c); }
      ScaleMul(GeoMul(a, c), k);
    }
  }

  /** Every multivector is the sum of its parts times the unit blades. */
  lemma BladeDecomposition(a: Multivector3D)
    ensures a == Add(Add(Add(ScaleMul(One, a.scalar),
                             Add(Add(ScaleMul(E1, a.vector.x), ScaleMul(E2, a.vector.y)), ScaleMul(E3, a.vector.z))),
                         Add(Add(ScaleMul(E23, a.bivector.x), ScaleMul(E31, a.bivector.y)), ScaleMul(E12, a.bivector.z))),
                     ScaleMul(UnitPseudoscalar, a.pscalar))
  {
  }

  /** The law carries over from two left operands to their sum. */
  lemma AssociatesAdd(a1: Multivector3D, a2: Multivector3D, b: Multivector3D, c: Multivector3D)
    requires Associates(a1, b, c) && Associates(a2, b, c)
    ensures Associates(Add(a1, a2), b, c)
  {
    calc {
      GeoMul(GeoMul(Add(a1, a2), b), c);
    == { GeoMulAddLeft(a1, a2, b); }
      GeoMul(Add(GeoMul(a1, b), GeoMul(a2, b)), c);
    == { GeoMulAddLeft(GeoMul(a1, b), GeoMul(a2, b), c); }
      Add(GeoMul(GeoMul(a1, b), c), GeoMul(GeoMul(a2, b), c));
      Add(GeoMul(a1, GeoMul(b, c)), GeoMul(a2, GeoMul(b, c)));
    == { GeoMulAddLeft(a1, a2, GeoMul(b, c)); }
      GeoMul(Add(a1, a2), GeoMul(b, c));
    }
  }

  /** The law carries over from a left operand to any multiple of it. */
  lemma AssociatesScale(a: Multivector3D, k: real, b: Multivector3D, c: Multivector3D)
    requires Associates(a, b, c)
    ensures Associates(ScaleMul(a, k), b, c)
  {
    calc {
      GeoMul(GeoMul(ScaleMul(a, k), b), c);
    == { GeoMulScaleLeft(a, k, b); }
      GeoMul(ScaleMul(GeoMul(a, b), k), c);
    == { GeoMulScaleLeft(GeoMul(a, b), k, c); }
      ScaleMul(GeoMul(GeoMul(a, b), c), k);
      ScaleMul(GeoMul(a, GeoMul(b, c)), k);
    == { GeoMulScaleLeft(a, k, GeoMul(b, c)); }
      GeoMul(ScaleMul(a, k), GeoMul(b, c));
    }
  }

  // The law for each unit blade on the left: with the blade fixed, both
  // sides are bilinear in b and c and the solver matches them term by term.

  lemma OneAssociates(b: Multivector3D, c: Multivector3D)
    ensures Associates(One, b, c)
  {
  }

  lemma E1Associates(b: Multivector3D, c: Multivector3D)
    ensures Associates(E1, b, c)
  {
  }

  lemma E2Associates(b: Multivector3D, c: Multivector3D)
    ensures Associates(E2, b, c)
  {
  }

  lemma E3Associates(b: Multivector3D, c: Multivector3D)
    ensures Associates(E3, b, c)
  {
  }

  lemma E23Associates(b: Multivector3D, c: Multivector3D)
    ensures Associates(E23, b, c)
  {
  }

  lemma E31Associates(b: Multivector3D, c: Multivector3D)
    ensures Associates(E31, b, c)
  {
  }

  lemma E12Associates(b: Multivector3D, c: Multivector3D)
    ensures Associates(E12, b, c)
  {
  }

  lemma PseudoscalarAssociates(b: Multivector3D, c: Multivector3D)
    ensures Associates(UnitPseudoscalar, b, c)
  {
  }
}
