/**
 Resolution of one pair of spheres (the body of the double loop in
 `ColisoesEntreBolas`, colisor.c:94-115). Both spheres have equal mass; the
 collision is one-dimensional along the unit contact normal, and the overlap
 is removed by pushing each sphere half of it along that normal.

 `dist` is the length of the centre-to-centre displacement, the value
 `Vector3Length` returns; the caller supplies it.
 */
module Pair {
  import opened Vectors
  import opened Scene

  /** The pair is resolved only when the spheres overlap and their centres differ. */
  predicate InContact(dist: real, sumR: real) {
    dist < sumR && dist > 0.0
  }

  /**
   Post-collision normal velocities of two equal masses with restitution `cr`:
   the sum is kept and the relative velocity is reversed and scaled by `cr`.
   */
  function NormalResponse(vi1: real, vi2: real, cr: real): (vf: (real, real))
    ensures vf.0 + vf.1 == vi1 + vi2
    ensures vf.0 - vf.1 == -cr * (vi1 - vi2)
  {
    var vcm := (vi1 + vi2) * 0.5;
    ((1.0 + cr) * vcm - cr * vi1, (1.0 + cr) * vcm - cr * vi2)
  }

  /** For Cr = 1 the normal velocities are exchanged: 3 and -1 become -1 and 3. */
  lemma ElasticExchangeExample()
    ensures NormalResponse(3.0, -1.0, 1.0) == (-1.0, 3.0)
  {
  }

  /** With Cr = 1 the normal velocities swap, so the sum of their squares is kept. */
  lemma ElasticNormalSwap(vi1: real, vi2: real)
    ensures NormalResponse(vi1, vi2, 1.0) == (vi2, vi1)
    ensures var vf := NormalResponse(vi1, vi2, 1.0);
            vf.0 * vf.0 + vf.1 * vf.1 == vi1 * vi1 + vi2 * vi2
  {
  }

  /** How the sum of squared normal velocities changes: by (Cr^2 - 1)/2 times the squared relative velocity. */
  lemma NormalEnergyChange(vi1: real, vi2: real, cr: real)
    ensures var vf := NormalResponse(vi1, vi2, cr);
            vf.0 * vf.0 + vf.1 * vf.1
              == vi1 * vi1 + vi2 * vi2 + (cr * cr - 1.0) * (vi1 - vi2) * (vi1 - vi2) * 0.5
  {
    var vf := NormalResponse(vi1, vi2, cr);
    var m := (vi1 + vi2) * 0.5;
    var h := (vi1 - vi2) * 0.5;
    assert vi1 == m + h && vi2 == m - h;
    assert vf.0 == m - cr * h && vf.1 == m + cr * h;
    calc {
      vf.0 * vf.0 + vf.1 * vf.1;
      (m - cr * h) * (m - cr * h) + (m + cr * h) * (m + cr * h);
      2.0 * m * m + 2.0 * cr * cr * h * h;
      (m + h) * (m + h) + (m - h) * (m - h) + (cr * cr - 1.0) * 2.0 * h * h;
    }
  }

  /** Unit vector from the second centre toward the first. */
  function ContactNormal(delta: Vec3, dist: real): Vec3
    requires dist > 0.0
  {
    Scale(delta, 1.0 / dist)
  }

  /**
   One pass of the inner loop body for spheres `a` (index i) and `b` (index j).
   Nothing changes unless the spheres overlap with distinct centres; radius and
   colour never change.
   */
  function ResolvePair(a: Ball, b: Ball, cr: real, dist: real): (r: (Ball, Ball))
    requires IsLengthOf(dist, Sub(a.pos, b.pos))
    ensures r.0.radius == a.radius && r.0.color == a.color
    ensures r.1.radius == b.radius && r.1.color == b.color
    ensures !InContact(dist, a.radius + b.radius) ==> r == (a, b)
  {
    var sumR := a.radius + b.radius;
    if InContact(dist, sumR) then
      var normal := ContactNormal(Sub(a.pos, b.pos), dist);
      var vi1 := Dot(a.vel, normal);
      var vi2 := Dot(b.vel, normal);
      var vf := NormalResponse(vi1, vi2, cr);
      var correction := Scale(normal, (sumR - dist) * 0.5);
      (a.(vel := Add(a.vel, Scale(normal, vf.0 - vi1)), pos := Add(a.pos, correction)),
       b.(vel := Add(b.vel, Scale(normal, vf.1 - vi2)), pos := Sub(b.pos, correction)))
    else
      (a, b)
  }

  /** The sum of the two velocity vectors is the same before and after. */
  lemma PairConservesVelocitySum(a: Ball, b: Ball, cr: real, dist: real)
    requires IsLengthOf(dist, Sub(a.pos, b.pos))
    ensures var r := ResolvePair(a, b, cr, dist);
            Add(r.0.vel, r.1.vel) == Add(a.vel, b.vel)
  {
    if InContact(dist, a.radius + b.radius) {
      var normal := ContactNormal(Sub(a.pos, b.pos), dist);
      var vi1 := Dot(a.vel, normal);
      var vi2 := Dot(b.vel, normal);
      var vf := NormalResponse(vi1, vi2, cr);
      OppositeScalesCancel(normal, vf.0 - vi1, vf.1 - vi2);
    }
  }

  /** The sum of the two centres is the same before and after: the push is symmetric. */
  lemma PairConservesPositionSum(a: Ball, b: Ball, cr: real, dist: real)
    requires IsLengthOf(dist, Sub(a.pos, b.pos))
    ensures var r := ResolvePair(a, b, cr, dist);
            Add(r.0.pos, r.1.pos) == Add(a.pos, b.pos)
  {
  }

  /**
   After a resolved pair the relative velocity along the contact normal is the
   old one reversed and scaled by Cr, and each sphere's normal velocity is the
   one `NormalResponse` prescribes.
   */
  lemma PairRestitution(a: Ball, b: Ball, cr: real, dist: real)
    requires IsLengthOf(dist, Sub(a.pos, b.pos))
    requires InContact(dist, a.radius + b.radius)
    ensures var r := ResolvePair(a, b, cr, dist);
            var n := ContactNormal(Sub(a.pos, b.pos), dist);
            && Dot(Sub(r.0.vel, r.1.vel), n) == -cr * Dot(Sub(a.vel, b.vel), n)
            && (Dot(r.0.vel, n), Dot(r.1.vel, n)) == NormalResponse(Dot(a.vel, n), Dot(b.vel, n), cr)
  {
    var delta := Sub(a.pos, b.pos);
    var normal := ContactNormal(delta, dist);
    var vi1 := Dot(a.vel, normal);
    var vi2 := Dot(b.vel, normal);
    var vf := NormalResponse(vi1, vi2, cr);
    var r := ResolvePair(a, b, cr, dist);
    UnitNormal(delta, dist);
    DotAddScale(a.vel, normal, vf.0 - vi1, normal);
    DotAddScale(b.vel, normal, vf.1 - vi2, normal);
    assert Dot(r.0.vel, normal) == vf.0;
    assert Dot(r.1.vel, normal) == vf.1;
  }

  /**
   The collision is frictionless: for every direction `t` orthogonal to the
   centre line, each sphere's velocity component along `t` is unchanged.
   */
  lemma PairFrictionless(a: Ball, b: Ball, cr: real, dist: real, t: Vec3)
    requires IsLengthOf(dist, Sub(a.pos, b.pos))
    requires Dot(Sub(a.pos, b.pos), t) == 0.0
    ensures var r := ResolvePair(a, b, cr, dist);
            Dot(r.0.vel, t) == Dot(a.vel, t) && Dot(r.1.vel, t) == Dot(b.vel, t)
  {
    if InContact(dist, a.radius + b.radius) {
      var delta := Sub(a.pos, b.pos);
      var normal := ContactNormal(delta, dist);
      var vi1 := Dot(a.vel, normal);
      var vi2 := Dot(b.vel, normal);
      var vf := NormalResponse(vi1, vi2, cr);
      assert Dot(normal, t) == (1.0 / dist) * Dot(delta, t);
      DotAddScale(a.vel, normal, vf.0 - vi1, t);
      DotAddScale(b.vel, normal, vf.1 - vi2, t);
    }
  }

  /**
   After a resolved pair the centres lie `a.radius + b.radius` apart along the
   old contact normal: the spheres just touch, and they are strictly farther
   apart than they were.
   */
  lemma PairSeparation(a: Ball, b: Ball, cr: real, dist: real)
    requires IsLengthOf(dist, Sub(a.pos, b.pos))
    requires InContact(dist, a.radius + b.radius)
    ensures var r := ResolvePair(a, b, cr, dist);
            var sumR := a.radius + b.radius;
            && Sub(r.0.pos, r.1.pos) == Scale(ContactNormal(Sub(a.pos, b.pos), dist), sumR)
            && IsLengthOf(sumR, Sub(r.0.pos, r.1.pos))
            && sumR > dist
  {
    var delta := Sub(a.pos, b.pos);
    var sumR := a.radius + b.radius;
    var n := ContactNormal(delta, dist);
    var r := ResolvePair(a, b, cr, dist);
    var h := (sumR - dist) * 0.5;
    ReciprocalScaleCancels(delta, dist);
    var d' := Sub(r.0.pos, r.1.pos);
    assert d'.x == n.x * dist + 2.0 * (n.x * h);
    assert d'.y == n.y * dist + 2.0 * (n.y * h);
    assert d'.z == n.z * dist + 2.0 * (n.z * h);
    assert d' == Scale(n, sumR);
    UnitNormal(delta, dist);
    SqNormScale(n, sumR);
  }

  /**
   Sum of squared speeds of the pair after a resolved collision: it changes by
   (Cr^2 - 1)/2 times the square of the old relative normal velocity. It is kept
   for Cr = 1 and does not grow for 0 < Cr <= 1.
   */
  lemma PairEnergy(a: Ball, b: Ball, cr: real, dist: real)
    requires IsLengthOf(dist, Sub(a.pos, b.pos))
    requires InContact(dist, a.radius + b.radius)
    ensures var r := ResolvePair(a, b, cr, dist);
            var w := Dot(Sub(a.vel, b.vel), ContactNormal(Sub(a.pos, b.pos), dist));
            SqNorm(r.0.vel) + SqNorm(r.1.vel)
              == SqNorm(a.vel) + SqNorm(b.vel) + (cr * cr - 1.0) * (w * w) * 0.5
    ensures var r := ResolvePair(a, b, cr, dist);
            cr == 1.0 ==> SqNorm(r.0.vel) + SqNorm(r.1.vel) == SqNorm(a.vel) + SqNorm(b.vel)
    ensures var r := ResolvePair(a, b, cr, dist);
            0.0 < cr <= 1.0 ==> SqNorm(r.0.vel) + SqNorm(r.1.vel) <= SqNorm(a.vel) + SqNorm(b.vel)
  {
    var delta := Sub(a.pos, b.pos);
    var normal := ContactNormal(delta, dist);
    var vi1 := Dot(a.vel, normal);
    var vi2 := Dot(b.vel, normal);
    var vf := NormalResponse(vi1, vi2, cr);
    var r := ResolvePair(a, b, cr, dist);
    assert r.0.vel == Add(a.vel, Scale(normal, vf.0 - vi1));
    assert r.1.vel == Add(b.vel, Scale(normal, vf.1 - vi2));
    UnitNormal(delta, dist);
    KickEnergy(a.vel, normal, vi1, vf.0);
    KickEnergy(b.vel, normal, vi2, vf.1);
    NormalEnergyChange(vi1, vi2, cr);
    var w := Dot(Sub(a.vel, b.vel), normal);
    assert vi1 - vi2 == w;
    assert (vi1 - vi2) * (vi1 - vi2) == w * w;
    if 0.0 < cr <= 1.0 {
      DampedNonPositive(cr, w);
    }
  }

  /** Adding `(vf - vi) * n` to `v`, with `n` a unit vector and `vi` the component of `v` along it, changes the squared norm by `vf^2 - vi^2`. */
  lemma KickEnergy(v: Vec3, n: Vec3, vi: real, vf: real)
    requires SqNorm(n) == 1.0 && vi == Dot(v, n)
    ensures SqNorm(Add(v, Scale(n, vf - vi))) == SqNorm(v) + vf * vf - vi * vi
  {
    var k := vf - vi;
    SqNormAddScale(v, n, k);
    assert k * k * SqNorm(n) == k * k;
    assert 2.0 * k * vi + k * k == vf * vf - vi * vi;
  }

  lemma DampedNonPositive(cr: real, w: real)
    requires 0.0 < cr <= 1.0
    ensures (cr * cr - 1.0) * (w * w) * 0.5 <= 0.0
  {
    assert cr * cr <= cr * 1.0;
    var q := w * w;
    assert q >= 0.0;
    var p := cr * cr - 1.0;
    assert p <= 0.0;
    assert p * q <= 0.0;
  }
}
