/**
 * Real 3-vectors: the fixed-size triples that hold the vector part
 * (over e1, e2, e3) and the bivector part (over e2e3, e3e1, e1e2) of a
 * multivector, with the Euclidean dot and cross products that the
 * geometric product is written in.
 */
module Vectors {

  datatype Vec3 = Vec3(x: real, y: real, z: real)

  function VAdd(u: Vec3, w: Vec3): Vec3 {
    Vec3(u.x + w.x, u.y + w.y, u.z + w.z)
  }

  function VSub(u: Vec3, w: Vec3): Vec3 {
    Vec3(u.x - w.x, u.y - w.y, u.z - w.z)
  }

  /** k times u, with the number on the left as in `other*self.vector`. */
  function VScale(k: real, u: Vec3): Vec3 {
    Vec3(k * u.x, k * u.y, k * u.z)
  }

  /** The Euclidean inner product (numpy's `dot` on two length-3 arrays). */
  function Dot3(u: Vec3, w: Vec3): real {
    u.x * w.x + u.y * w.y + u.z * w.z
  }

  /** The right-handed cross product (numpy's `cross` on two length-3 arrays). */
  function Cross3(u: Vec3, w: Vec3): Vec3 {
    Vec3(u.y * w.z - u.z * w.y, u.z * w.x - u.x * w.z, u.x * w.y - u.y * w.x)
  }

  /** Two vectors with the same components are the same vector. */
  lemma Vec3Equal(u: Vec3, w: Vec3)
    requires u.x == w.x && u.y == w.y && u.z == w.z
    ensures u == w
  {
  }

  // Scaling commutes with the sums and products above.  Products of reals
  // are regrouped one step at a time, through the two ScaleDiff lemmas,
  // because the solver does not reliably distribute a factor over a sum.

  /** k times a difference of products, with k on the left factors. */
  lemma ScaleDiffLeft(k: real, a: real, b: real, c: real, d: real)
    ensures (k * a) * b - (k * c) * d == k * (a * b - c * d)
  {
  }

  /** k times a difference of products, with k on the right factors. */
  lemma ScaleDiffRight(k: real, a: real, b: real, c: real, d: real)
    ensures a * (k * b) - c * (k * d) == k * (a * b - c * d)
  {
  }

  /** Scaling by k and then by m is scaling by k * m. */
  lemma VScaleCompose(k: real, m: real, u: Vec3)
    ensures VScale(m, VScale(k, u)) == VScale(k * m, u)
  {
    MulRegroup(k, m, u.x);
    MulRegroup(k, m, u.y);
    MulRegroup(k, m, u.z);
  }

  lemma MulRegroup(k: real, m: real, x: real)
    ensures m * (k * x) == (k * m) * x
  {
  }

  lemma Cross3ScaleLeftX(k: real, u: Vec3, w: Vec3)
    ensures Cross3(VScale(k, u), w).x == k * Cross3(u, w).x
  {
    calc {
      Cross3(VScale(k, u), w).x;
      (k * u.y) * w.z - (k * u.z) * w.y;
    == { ScaleDiffLeft(k, u.y, w.z, u.z, w.y); }
      k * (u.y * w.z - u.z * w.y);
      k * Cross3(u, w).x;
    }
  }

  lemma Cross3ScaleRightX(k: real, u: Vec3, w: Vec3)
    ensures Cross3(u, VScale(k, w)).x == k * Cross3(u, w).x
  {
    calc {
      Cross3(u, VScale(k, w)).x;
      u.y * (k * w.z) - u.z * (k * w.y);
    == { ScaleDiffRight(k, u.y, w.z, u.z, w.y); }
      k * (u.y * w.z - u.z * w.y);
      k * Cross3(u, w).x;
    }
  }

  lemma Cross3ScaleLeftY(k: real, u: Vec3, w: Vec3)
    ensures Cross3(VScale(k, u), w).y == k * Cross3(u, w).y
  {
    calc {
      Cross3(VScale(k, u), w).y;
      (k * u.z) * w.x - (k * u.x) * w.z;
    == { ScaleDiffLeft(k, u.z, w.x, u.x, w.z); }
      k * (u.z * w.x - u.x * w.z);
      k * Cross3(u, w).y;
    }
  }

  lemma Cross3ScaleRightY(k: real, u: Vec3, w: Vec3)
    ensures Cross3(u, VScale(k, w)).y == k * Cross3(u, w).y
  {
    calc {
      Cross3(u, VScale(k, w)).y;
      u.z * (k * w.x) - u.x * (k * w.z);
    == { ScaleDiffRight(k, u.z, w.x, u.x, w.z); }
      k * (u.z * w.x - u.x * w.z);
      k * Cross3(u, w).y;
    }
  }

  lemma Cross3ScaleLeftZ(k: real, u: Vec3, w: Vec3)
    ensures Cross3(VScale(k, u), w).z == k * Cross3(u, w).z
  {
    calc {
      Cross3(VScale(k, u), w).z;
      (k * u.x) * w.y - (k * u.y) * w.x;
    == { ScaleDiffLeft(k, u.x, w.y, u.y, w.x); }
      k * (u.x * w.y - u.y * w.x);
      k * Cross3(u, w).z;
    }
  }

  lemma Cross3ScaleRightZ(k: real, u: Vec3, w: Vec3)
    ensures Cross3(u, VScale(k, w)).z == k * Cross3(u, w).z
  {
    calc {
      Cross3(u, VScale(k, w)).z;
      u.x * (k * w.y) - u.y * (k * w.x);
    == { ScaleDiffRight(k, u.x, w.y, u.y, w.x); }
      k * (u.x * w.y - u.y * w.x);
      k * Cross3(u, w).z;
    }
  }
}
