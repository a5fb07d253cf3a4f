/**
 Three-dimensional vectors over the reals, standing in for raylib's `Vector3`
 of single-precision floats. Only the operations the physics update uses are
 defined: addition, subtraction, scaling and the dot product. The Euclidean
 length (a square root) is not computed; it is characterised by the predicate
 `IsLengthOf` instead.
 */
module Vectors {

  datatype Vec3 = Vec3(x: real, y: real, z: real)

  const Zero: Vec3 := Vec3(0.0, 0.0, 0.0)

  function Add(a: Vec3, b: Vec3): Vec3 {
    Vec3(a.x + b.x, a.y + b.y, a.z + b.z)
  }

  function Sub(a: Vec3, b: Vec3): Vec3 {
    Vec3(a.x - b.x, a.y - b.y, a.z - b.z)
  }

  function Scale(v: Vec3, k: real): Vec3 {
    Vec3(v.x * k, v.y * k, v.z * k)
  }

  function Dot(a: Vec3, b: Vec3): real {
    a.x * b.x + a.y * b.y + a.z * b.z
  }

  /** Squared Euclidean norm. */
  function SqNorm(v: Vec3): real {
    Dot(v, v)
  }

  /** `d` is the Euclidean length of `v`: the value `Vector3Length(v)` returns. */
  predicate IsLengthOf(d: real, v: Vec3) {
    0.0 <= d && d * d == SqNorm(v)
  }

  /** `len` computes the Euclidean length of every vector. */
  ghost predicate IsLength(len: Vec3 -> real) {
    forall v :: IsLengthOf(len(v), v)
  }

  /** Scaling by `k` scales the squared norm by `k * k`. */
  lemma SqNormScale(v: Vec3, k: real)
    ensures SqNorm(Scale(v, k)) == k * k * SqNorm(v)
  {
  }

  /** Scaling by the reciprocal of `d` and then by `d` gives back the vector. */
  lemma ReciprocalScaleCancels(v: Vec3, d: real)
    requires d > 0.0
    ensures Scale(Scale(v, 1.0 / d), d) == v
  {
    assert (1.0 / d) * d == 1.0;
  }

  /** The dot product is linear in a displacement along one direction. */
  lemma DotAddScale(v: Vec3, n: Vec3, k: real, t: Vec3)
    ensures Dot(Add(v, Scale(n, k)), t) == Dot(v, t) + k * Dot(n, t)
  {
    calc {
      Dot(Add(v, Scale(n, k)), t);
      (v.x + n.x * k) * t.x + (v.y + n.y * k) * t.y + (v.z + n.z * k) * t.z;
      v.x * t.x + v.y * t.y + v.z * t.z + k * (n.x * t.x + n.y * t.y + n.z * t.z);
    }
  }

  /** Expanding the squared norm of `v + k*n`. */
  lemma SqNormAddScale(v: Vec3, n: Vec3, k: real)
    ensures SqNorm(Add(v, Scale(n, k))) == SqNorm(v) + 2.0 * k * Dot(v, n) + k * k * SqNorm(n)
  {
    var w := Add(v, Scale(n, k));
    DotAddScale(v, n, k, w);
    DotAddScale(v, n, k, v);
    DotAddScale(v, n, k, n);
    assert Dot(v, w) == Dot(w, v);
    assert Dot(n, w) == Dot(w, n);
    assert Dot(n, v) == Dot(v, n);
  }

  /** Scaling by the reciprocal of the length gives a unit vector. */
  lemma UnitNormal(delta: Vec3, dist: real)
    requires IsLengthOf(dist, delta) && dist > 0.0
    ensures SqNorm(Scale(delta, 1.0 / dist)) == 1.0
  {
    var k := 1.0 / dist;
    assert k * dist == 1.0;
    calc {
      SqNorm(Scale(delta, k));
      (delta.x * k) * (delta.x * k) + (delta.y * k) * (delta.y * k) + (delta.z * k) * (delta.z * k);
      k * k * SqNorm(delta);
      k * k * (dist * dist);
      (k * dist) * (k * dist);
    }
  }

  /** Two displacements along one direction with opposite weights cancel. */
  lemma OppositeScalesCancel(n: Vec3, k1: real, k2: real)
    requires k1 + k2 == 0.0
    ensures Add(Scale(n, k1), Scale(n, k2)) == Zero
  {
    assert k2 == -k1;
    assert n.x * k1 + n.x * k2 == n.x * (k1 + k2);
    assert n.y * k1 + n.y * k2 == n.y * (k1 + k2);
    assert n.z * k1 + n.z * k2 == n.z * (k1 + k2);
  }
}
