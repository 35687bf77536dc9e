/**
 * Multivectors of the geometric (Clifford) algebra Cl(3,0) and their
 * operators.  A multivector has a scalar part, a vector part over
 * e1, e2, e3, a bivector part over the cyclic basis e2e3, e3e1, e1e2, and
 * a pseudoscalar part over e1e2e3.  Every operator builds a fresh value;
 * the parts are exact reals.
 */
module Multivector {
  import opened Vectors

  /**
   * The value type.  The defaults of the constructor are those of the
   * class's initialiser: every part zero.
   */
  datatype Multivector3D = Multivector3D(
    scalar: real := 0.0,
    vector: Vec3 := Vec3(0.0, 0.0, 0.0),
    bivector: Vec3 := Vec3(0.0, 0.0, 0.0),
    pscalar: real := 0.0)

  /** Two multivectors with the same eight components are equal. */
  lemma MultivectorEqual(m: Multivector3D, n: Multivector3D)
    requires m.scalar == n.scalar && m.pscalar == n.pscalar
    requires m.vector.x == n.vector.x && m.vector.y == n.vector.y && m.vector.z == n.vector.z
    requires m.bivector.x == n.bivector.x && m.bivector.y == n.bivector.y && m.bivector.z == n.bivector.z
    ensures m == n
  {
  }

  /** The right operand of `*` and `/`: a plain number or another multivector. */
  datatype Operand = Number(k: real) | Multi(m: Multivector3D)

  /** Why a division fails: a zero divisor, or a divisor that is not a number. */
  datatype DivError = ZeroDivision | NotANumber

  /** The outcome of an operation that can fail. */
  datatype Result<T, E> = Ok(value: T) | Err(error: E)

  /** The basis vectors, built as in the module-level constants. */
  const E1: Multivector3D := Multivector3D(vector := Vec3(1.0, 0.0, 0.0))
  const E2: Multivector3D := Multivector3D(vector := Vec3(0.0, 1.0, 0.0))
  const E3: Multivector3D := Multivector3D(vector := Vec3(0.0, 0.0, 1.0))

  /** The unit pseudoscalar e1e2e3, the right factor of the dual. */
  const UnitPseudoscalar: Multivector3D := Multivector3D(pscalar := 1.0)

  /** Component-wise sum of all four parts. */
  function Add(a: Multivector3D, b: Multivector3D): Multivector3D {
    Multivector3D(a.scalar + b.scalar,
                  VAdd(a.vector, b.vector),
                  VAdd(a.bivector, b.bivector),
                  a.pscalar + b.pscalar)
  }

  /** The number branch of `*`: every part multiplied by k. */
  function ScaleMul(a: Multivector3D, k: real): Multivector3D {
    Multivector3D(k * a.scalar, VScale(k, a.vector), VScale(k, a.bivector), k * a.pscalar)
  }

  /** Scaling twice is scaling once by the product of the two numbers. */
  lemma ScaleMulCompose(a: Multivector3D, k: real, m: real)
    ensures ScaleMul(ScaleMul(a, k), m) == ScaleMul(a, k * m)
  {
    calc {
      ScaleMul(ScaleMul(a, k), m);
      Multivector3D(m * (k * a.scalar), VScale(m, VScale(k, a.vector)), VScale(m, VScale(k, a.bivector)),
                    m * (k * a.pscalar));
    == { MulRegroup(k, m, a.scalar); VScaleCompose(k, m, a.vector);
         VScaleCompose(k, m, a.bivector); MulRegroup(k, m, a.pscalar); }
      Multivector3D((k * m) * a.scalar, VScale(k * m, a.vector), VScale(k * m, a.bivector), (k * m) * a.pscalar);
      ScaleMul(a, k * m);
    }
  }

  /** Scaling by one changes nothing. */
  lemma ScaleMulOne(a: Multivector3D)
    ensures ScaleMul(a, 1.0) == a
  {
  }

  /** Scaling by the reciprocal of k and then by k gives back the original. */
  lemma ScaleMulReciprocal(a: Multivector3D, k: real)
    requires k != 0.0
    ensures ScaleMul(ScaleMul(a, 1.0 / k), k) == a
  {
    var r := 1.0 / k;
    assert r * k == 1.0;
    ScaleMulCompose(a, r, k);
    ScaleMulOne(a);
  }

  /**
   * Subtraction, defined as `a + b*(-1)`; the result is the component-wise
   * difference, and adding b back gives a.
   */
  function Sub(a: Multivector3D, b: Multivector3D): (r: Multivector3D)
    ensures r == Multivector3D(a.scalar - b.scalar,
                               VSub(a.vector, b.vector),
                               VSub(a.bivector, b.bivector),
                               a.pscalar - b.pscalar)
    ensures Add(r, b) == a
  {
    Add(a, ScaleMul(b, -1.0))
  }

  /**
   * The multivector branch of `*`: the closed-form geometric product, grade
   * by grade, in the cyclic bivector basis.
   */
  function GeoMul(a: Multivector3D, b: Multivector3D): Multivector3D {
    Multivector3D(ProductScalar(a, b), ProductVector(a, b), ProductBivector(a, b), ProductPscalar(a, b))
  }

  /** Grade 0 of the geometric product. */
  function ProductScalar(a: Multivector3D, b: Multivector3D): real {
    a.scalar * b.scalar
      - a.pscalar * b.pscalar
      + Dot3(a.vector, b.vector)
      - Dot3(a.bivector, b.bivector)
  }

  /** Grade 1 of the geometric product, one line per component. */
  function ProductVector(a: Multivector3D, b: Multivector3D): Vec3 {
    var s1, v1, b1, p1 := a.scalar, a.vector, a.bivector, a.pscalar;
    var s2, v2, b2, p2 := b.scalar, b.vector, b.bivector, b.pscalar;
    var v1b2, v2b1 := Cross3(v1, b2), Cross3(v2, b1);
    Vec3(s1 * v2.x + s2 * v1.x - p1 * b2.x - p2 * b1.x - v1b2.x + v2b1.x,
         s1 * v2.y + s2 * v1.y - p1 * b2.y - p2 * b1.y - v1b2.y + v2b1.y,
         s1 * v2.z + s2 * v1.z - p1 * b2.z - p2 * b1.z - v1b2.z + v2b1.z)
  }

  /** Grade 2 of the geometric product, one line per component. */
  function ProductBivector(a: Multivector3D, b: Multivector3D): Vec3 {
    var s1, v1, b1, p1 := a.scalar, a.vector, a.bivector, a.pscalar;
    var s2, v2, b2, p2 := b.scalar, b.vector, b.bivector, b.pscalar;
    var v1v2, b1b2 := Cross3(v1, v2), Cross3(b1, b2);
    Vec3(s1 * b2.x + s2 * b1.x + p2 * v1.x + p1 * v2.x + v1v2.x - b1b2.x,
         s1 * b2.y + s2 * b1.y + p2 * v1.y + p1 * v2.y + v1v2.y - b1b2.y,
         s1 * b2.z + s2 * b1.z + p2 * v1.z + p1 * v2.z + v1v2.z - b1b2.z)
  }

  /** Grade 3 of the geometric product. */
  function ProductPscalar(a: Multivector3D, b: Multivector3D): real {
    a.scalar * b.pscalar
      + a.pscalar * b.scalar
      + Dot3(a.vector, b.bivector)
      + Dot3(a.bivector, b.vector)
  }

  /** A right operand as a multivector: a number k is the scalar-only multivector k. */
  function AsMultivector(o: Operand): Multivector3D {
    match o
    case Number(k) => Multivector3D(scalar := k)
    case Multi(m) => m
  }

  /**
   * `a * o`: dispatch on the kind of the right operand.  The number branch
   * agrees with the geometric product, so every `*` is a geometric product.
   */
  function Mul(a: Multivector3D, o: Operand): (r: Multivector3D)
    ensures r == GeoMul(a, AsMultivector(o))
  {
    match o
    case Number(k) => ScaleMul(a, k)
    case Multi(m) => GeoMul(a, m)
  }

  /**
   * `a / o`: multiplication by the reciprocal of a non-zero number.  A zero
   * number and a multivector divisor are both errors.  A successful result
   * times the divisor is a again.
   */
  function Div(a: Multivector3D, o: Operand): (r: Result<Multivector3D, DivError>)
    ensures r.Ok? <==> o.Number? && o.k != 0.0
    ensures o.Number? && o.k == 0.0 ==> r == Err(ZeroDivision)
    ensures o.Multi? ==> r == Err(NotANumber)
    ensures r.Ok? ==> ScaleMul(r.value, o.k) == a
  {
    match o
    case Number(k) =>
      if k == 0.0 then Err(ZeroDivision)
      else
        ScaleMulReciprocal(a, k);
        Ok(ScaleMul(a, 1.0 / k))
    case Multi(_) => Err(NotANumber)
  }

  /** Halving, the `/2` of `dot` and of the wedge: a division by 2 that cannot fail. */
  function Half(a: Multivector3D): (r: Multivector3D)
    ensures Div(a, Number(2.0)) == Ok(r)
  {
    ScaleMul(a, 1.0 / 2.0)
  }

  /** `dot`: the symmetric part of the geometric product, `(ab + ba)/2`. */
  function Dot(a: Multivector3D, b: Multivector3D): Multivector3D {
    Half(Add(GeoMul(a, b), GeoMul(b, a)))
  }

  /** `^`: the antisymmetric part of the geometric product, `(ab - ba)/2`. */
  function Wedge(a: Multivector3D, b: Multivector3D): Multivector3D {
    Half(Sub(GeoMul(a, b), GeoMul(b, a)))
  }

  /**
   * The dual, `a` times the unit pseudoscalar.  It moves each grade to the
   * complementary one: the scalar becomes the pseudoscalar, the vector
   * becomes the bivector, the bivector becomes minus the vector and the
   * pseudoscalar becomes minus the scalar.
   */
  function Dual(a: Multivector3D): (r: Multivector3D)
    ensures r == Multivector3D(-a.pscalar, VScale(-1.0, a.bivector), a.vector, a.scalar)
  {
    GeoMul(a, UnitPseudoscalar)
  }
}
