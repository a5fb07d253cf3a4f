/**
 The per-frame update (`AtualizarSimulacao`, colisor.c:120-126): every one of
 the first `n` spheres is moved by velocity times the frame time and checked
 against the walls, and only then is the pairwise pass run once over all of
 them.
 */
module Simulation {
  import opened Vectors
  import opened Scene
  import opened Wall
  import opened Pair
  import opened Pass

  /** Explicit Euler position update over a frame of length `dt`: the centre moves by `vel * dt`. */
  function Integrate(b: Ball, dt: real): (r: Ball)
    ensures Sub(r.pos, b.pos) == Scale(b.vel, dt)
    ensures r.vel == b.vel && r.radius == b.radius && r.color == b.color
  {
    b.(pos := Add(b.pos, Scale(b.vel, dt)))
  }

  /** Two Euler updates in a row move the centre as one update over the combined time. */
  lemma IntegrateComposes(b: Ball, d1: real, d2: real)
    ensures Integrate(Integrate(b, d1), d2) == Integrate(b, d1 + d2)
  {
  }

  /** The first loop of the frame: each of the first `n` spheres moved and wall-checked on its own. */
  function Advance(bs: seq<Ball>, n: nat, dt: real, cfg: Config): (r: seq<Ball>)
    requires n <= |bs|
    ensures |r| == |bs|
  {
    seq(|bs|, k requires 0 <= k < |bs| => if k < n then WallCollision(Integrate(bs[k], dt), cfg) else bs[k])
  }

  /** Radii and colours survive the first loop, the spheres from `n` on are untouched, and every moved sphere that fits the cube is inside it. */
  lemma AdvanceKeepsBallsInside(bs: seq<Ball>, n: nat, dt: real, cfg: Config)
    requires n <= |bs|
    ensures var moved := Advance(bs, n, dt, cfg);
            && (forall k :: 0 <= k < |bs| ==> moved[k].radius == bs[k].radius && moved[k].color == bs[k].color)
            && moved[n..] == bs[n..]
            && (forall k :: 0 <= k < n && bs[k].radius <= cfg.Limit() ==> Inside(moved[k], cfg.Limit()))
  {
    var moved := Advance(bs, n, dt, cfg);
    assert moved[n..] == bs[n..];
  }

  /**
   `AtualizarSimulacao`: integrate and wall-check the first `n` spheres in an
   array, then run the pairwise pass; `n` is the configured sphere count
   `NUM_BOLAS`, which both loops run to. Before the pass every moved sphere
   that fits the cube is inside it. Relative to the moved spheres, the pass
   keeps the count, every radius and colour, the spheres from `n` on and the
   sums of velocities and centres; across the whole frame, radii, colours and
   the spheres from `n` on are never touched.
   */
  method Step(bs: seq<Ball>, n: nat, dt: real, cfg: Config, len: Vec3 -> real) returns (r: seq<Ball>)
    requires n == cfg.numBalls && n <= |bs| && IsLength(len)
    ensures forall k :: 0 <= k < n && bs[k].radius <= cfg.Limit() ==> Inside(Advance(bs, n, dt, cfg)[k], cfg.Limit())
    ensures r == Rows(Advance(bs, n, dt, cfg), 0, n, cfg.restitution, len)
    ensures Conserved(Advance(bs, n, dt, cfg), r, n)
    ensures |r| == |bs| && r[n..] == bs[n..]
    ensures forall k :: 0 <= k < |bs| ==> r[k].radius == bs[k].radius && r[k].color == bs[k].color
  {
    var a := new Ball[|bs|](k requires 0 <= k < |bs| => bs[k]);
    var i := 0;
    while i < n
      invariant 0 <= i <= n && a.Length == |bs|
      invariant forall k :: 0 <= k < i ==> a[k] == WallCollision(Integrate(bs[k], dt), cfg)
      invariant forall k :: i <= k < |bs| ==> a[k] == bs[k]
    {
      a[i] := WallCollision(Integrate(a[i], dt), cfg);
      i := i + 1;
    }
    assert a[..] == Advance(bs, n, dt, cfg);
    AdvanceKeepsBallsInside(bs, n, dt, cfg);
    r := PairwisePass(a[..], n, cfg.restitution, len);
    assert r[n..] == a[n..];
  }

  /**
   With a valid configuration and radii the initialiser can draw, a frame in
   which no two moved spheres touch leaves every one of the first `n` spheres
   inside the cube.
   */
  lemma StepWithoutContactsKeepsBallsInside(bs: seq<Ball>, n: nat, dt: real, cfg: Config, len: Vec3 -> real)
    requires n == cfg.numBalls && n <= |bs| && IsLength(len) && cfg.Valid()
    requires forall k :: 0 <= k < n ==> MIN_RADIUS <= bs[k].radius <= MAX_RADIUS
    requires NoContacts(Advance(bs, n, dt, cfg), n, len)
    ensures var r := Rows(Advance(bs, n, dt, cfg), 0, n, cfg.restitution, len);
            forall k :: 0 <= k < n ==> Inside(r[k], cfg.Limit())
  {
    var moved := Advance(bs, n, dt, cfg);
    PassWithoutContacts(moved, 0, n, cfg.restitution, len);
    AdvanceKeepsBallsInside(bs, n, dt, cfg);
  }

  /**
   The positional correction runs after the wall check and can push a sphere
   through a face: a sphere touching the face x = +limit, overlapped by a
   sphere directly behind it on the x axis, ends with its centre beyond the
   bound limit - radius by half the overlap.
   */
  lemma CorrectionCanCrossWall(a: Ball, b: Ball, cr: real, dist: real, limit: real)
    requires Sub(a.pos, b.pos) == Vec3(dist, 0.0, 0.0) && dist > 0.0
    requires dist < a.radius + b.radius
    requires a.pos.x == limit - a.radius
    ensures IsLengthOf(dist, Sub(a.pos, b.pos))
    ensures var r := ResolvePair(a, b, cr, dist);
            && r.0.pos.x == limit - a.radius + (a.radius + b.radius - dist) * 0.5
            && !Inside(r.0, limit)
  {
    var n := Vec3(1.0, 0.0, 0.0);
    assert dist * (1.0 / dist) == 1.0;
    assert ContactNormal(Sub(a.pos, b.pos), dist) == n;
  }
}
