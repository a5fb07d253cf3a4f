/**
 Wall response (`ColisaoParede`, colisor.c:80-89): each axis of a sphere is
 checked on its own against the two faces of the cube; a sphere that pokes
 through a face has its centre put back so that it just touches that face, and
 the velocity component on that axis is multiplied by -Cr.
 */
module Wall {
  import opened Vectors
  import opened Scene

  /** A centre coordinate keeps a sphere of radius `radius` between the faces at +-`limit`. */
  predicate AxisInside(p: real, radius: real, limit: real) {
    -limit + radius <= p <= limit - radius
  }

  /** The whole sphere lies inside the cube of half-size `limit`. */
  predicate Inside(b: Ball, limit: real) {
    && AxisInside(b.pos.x, b.radius, limit)
    && AxisInside(b.pos.y, b.radius, limit)
    && AxisInside(b.pos.z, b.radius, limit)
  }

  /**
   How one axis responds to the walls: coordinate `p` and velocity `v` become
   `q` and `w`. Inside the admissible range nothing moves; otherwise the
   coordinate lands on the face it crossed (the upper face is tested first)
   and the velocity is reversed and scaled by `cr`.
   */
  predicate AxisResponse(p: real, v: real, q: real, w: real, radius: real, limit: real, cr: real) {
    && (AxisInside(p, radius, limit) ==> q == p && w == v)
    && (!AxisInside(p, radius, limit) ==> w == -cr * v)
    && (p > limit - radius ==> q == limit - radius)
    && (p <= limit - radius && p < -limit + radius ==> q == -limit + radius)
  }

  function BounceAxis(p: real, v: real, radius: real, limit: real, cr: real): (r: (real, real))
    ensures AxisResponse(p, v, r.0, r.1, radius, limit, cr)
    ensures radius <= limit ==> AxisInside(r.0, radius, limit)
  {
    if p > limit - radius then (limit - radius, v * -cr)
    else if p < -limit + radius then (-limit + radius, v * -cr)
    else (p, v)
  }

  /** `ColisaoParede`: the three axes are resolved independently against `LIMITE` and `COEF_RESTITUICAO`. */
  function WallCollision(b: Ball, cfg: Config): (r: Ball)
    ensures r.radius == b.radius && r.color == b.color
    ensures AxisResponse(b.pos.x, b.vel.x, r.pos.x, r.vel.x, b.radius, cfg.Limit(), cfg.restitution)
    ensures AxisResponse(b.pos.y, b.vel.y, r.pos.y, r.vel.y, b.radius, cfg.Limit(), cfg.restitution)
    ensures AxisResponse(b.pos.z, b.vel.z, r.pos.z, r.vel.z, b.radius, cfg.Limit(), cfg.restitution)
    ensures b.radius <= cfg.Limit() ==> Inside(r, cfg.Limit())
    ensures Inside(b, cfg.Limit()) ==> r == b
  {
    var limit := cfg.Limit();
    var cr := cfg.restitution;
    var (px, vx) := BounceAxis(b.pos.x, b.vel.x, b.radius, limit, cr);
    var (py, vy) := BounceAxis(b.pos.y, b.vel.y, b.radius, limit, cr);
    var (pz, vz) := BounceAxis(b.pos.z, b.vel.z, b.radius, limit, cr);
    b.(pos := Vec3(px, py, pz), vel := Vec3(vx, vy, vz))
  }

  /** When the sphere fits in the cube, a second wall check right after the first changes nothing. */
  lemma WallIdempotent(b: Ball, cfg: Config)
    requires b.radius <= cfg.Limit()
    ensures WallCollision(WallCollision(b, cfg), cfg) == WallCollision(b, cfg)
  {
    var r := WallCollision(b, cfg);
    assert Inside(r, cfg.Limit());
  }

  /** A sphere already inside the cube is left exactly as it was. */
  lemma WallLeavesInsideBallAlone(b: Ball, cfg: Config)
    requires Inside(b, cfg.Limit())
    ensures WallCollision(b, cfg) == b
  {
  }

  /**
   Worked example: a unit sphere whose centre sits on the face x = LIMITE = 20,
   moving at 5 along x with Cr = 0.8, ends with its centre at 19 and x-velocity -4;
   the other axes are untouched.
   */
  lemma WallBounceExample()
    ensures var b := Ball(Vec3(20.0, 3.0, -2.0), Vec3(5.0, 1.0, 1.0), Color(0, 0, 0, 255), 1.0);
            var r := WallCollision(b, Config(1, 10.0, 0.8, 40.0));
            r.pos == Vec3(19.0, 3.0, -2.0) && r.vel == Vec3(-4.0, 1.0, 1.0)
  {
  }

  /**
   With a valid configuration every sphere the initialiser can create ends the
   wall check inside the cube, and a repeated check leaves it there.
   */
  lemma ValidConfigKeepsBallsInside(b: Ball, cfg: Config, draw: nat)
    requires cfg.Valid() && b.radius == InitialRadius(draw)
    ensures Inside(WallCollision(b, cfg), cfg.Limit())
    ensures WallCollision(WallCollision(b, cfg), cfg) == WallCollision(b, cfg)
  {
    ValidConfigFitsEveryRadius(cfg, draw);
    WallIdempotent(b, cfg);
  }

  /**
   A sphere wider than the cube never settles: every wall check clamps all
   three axes, so each coordinate of the centre ends at +-(limit - radius),
   multiplies the whole velocity by -Cr and leaves the sphere sticking out of
   the cube; a second check straight after moves the centre to the mirror
   point through the origin.
   */
  lemma OversizedBallNeverSettles(b: Ball, cfg: Config)
    requires b.radius > cfg.Limit()
    ensures var r := WallCollision(b, cfg);
            var e := cfg.Limit() - b.radius;
            && (r.pos.x == e || r.pos.x == -e)
            && (r.pos.y == e || r.pos.y == -e)
            && (r.pos.z == e || r.pos.z == -e)
            && r.vel == Scale(b.vel, -cfg.restitution)
            && !Inside(r, cfg.Limit())
            && WallCollision(r, cfg).pos == Scale(r.pos, -1.0)
            && WallCollision(r, cfg).pos != r.pos
  {
    var r := WallCollision(b, cfg);
    var r2 := WallCollision(r, cfg);
    assert r2.pos.x != r.pos.x;
  }

  /**
   The start-up menu accepts a cube of edge 1.01 (LIMITE = 0.505), while the
   smallest radius the initialiser can draw is 0.7.
   */
  lemma MenuAdmitsOversizedBall()
    ensures var cfg := Config(1, 10.0, 1.0, 1.01);
            cfg.AcceptedByMenu() && !cfg.Valid() && InitialRadius(0) > cfg.Limit()
  {
  }
}
