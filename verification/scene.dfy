/**
 The simulation's data: a sphere (`Bola` in colisor.c), its display colour,
 and the four parameters read by the start-up menu together with the derived
 half-size `LIMITE` of the enclosing cube.
 */
module Scene {
  import opened Vectors

  /** Capacity of the sphere array. */
  const MAX_BALLS: int := 100

  /** Smallest and largest radius the scene initialiser can draw: 0.7 + k/100 for k in [0, 59]. */
  const MIN_RADIUS: real := 0.7
  const MAX_RADIUS: real := 1.29

  newtype byte = x: int | 0 <= x < 256

  /** RGBA colour; carried along but never read by the physics. */
  datatype Color = Color(r: byte, g: byte, b: byte, a: byte)

  datatype Ball = Ball(pos: Vec3, vel: Vec3, color: Color, radius: real)

  /** The parameters the start-up menu reads. */
  datatype Config = Config(numBalls: int, maxSpeed: real, restitution: real, cubeSize: real)
  {
    /** Half the cube's edge: the faces sit at -Limit() and +Limit() on every axis. */
    function Limit(): real {
      cubeSize / 2.0
    }

    /** The predicates the menu's re-prompt loops enforce before they let the program go on. */
    predicate AcceptedByMenu() {
      && 1 <= numBalls <= MAX_BALLS
      && maxSpeed > 0.0
      && restitution > 0.0
      && cubeSize > 1.0
    }

    /**
     A configuration the physics can honour: what the menu accepts, and a cube
     wide enough that every radius the initialiser can draw fits between two
     opposite faces.
     */
    predicate Valid() {
      AcceptedByMenu() && cubeSize >= 2.0 * MAX_RADIUS
    }
  }

  /** The radius the scene initialiser assigns from the draw `rand()` (a non-negative int). */
  function InitialRadius(draw: nat): (r: real)
    ensures MIN_RADIUS <= r <= MAX_RADIUS
    ensures ((r - MIN_RADIUS) * 100.0).Floor as real == (r - MIN_RADIUS) * 100.0
  {
    var k := draw % 60;
    assert 0 <= k < 60;
    MIN_RADIUS + (k as real) / 100.0
  }

  /** Every radius `InitialRadius` can produce fits inside the cube of a valid configuration. */
  lemma ValidConfigFitsEveryRadius(cfg: Config, draw: nat)
    requires cfg.Valid()
    ensures InitialRadius(draw) <= cfg.Limit()
  {
  }
}
