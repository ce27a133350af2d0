/** Object.cpp: a body of the two-body demo, with its position, velocity,
    mass and radius, updated in place by the simulation loop. */
module Body {

  /** Fraction of a velocity component kept, reversed, after a bounce. */
  const Restitution: real := 0.95

  /** One coordinate of a body: its position and velocity along one axis. */
  datatype Axis = Axis(pos: real, vel: real)

  /** The circle lies inside [0, limit] along this axis. */
  predicate WithinAxis(pos: real, radius: real, limit: real)
  {
    radius <= pos <= limit - radius
  }

  /** One axis of checkCollisionWithScreen: a circle sticking out below 0 is
      put back at `radius`, one sticking out above `limit` at
      `limit - radius`, and in both cases the velocity is reversed and damped.
      The lower test comes first, so at most one of the two fires: when the
      circle sticks out on both sides, the lower clamp wins. */
  function Bounce(a: Axis, radius: real, limit: real): (b: Axis)
    ensures a.pos - radius < 0.0 ==> b == Axis(radius, a.vel * -Restitution)
    ensures radius <= a.pos && a.pos + radius > limit ==>
      b == Axis(limit - radius, a.vel * -Restitution)
    ensures WithinAxis(a.pos, radius, limit) ==> b == a
    ensures !WithinAxis(a.pos, radius, limit) ==>
      b.vel == a.vel * -Restitution && (b.pos == radius || b.pos == limit - radius)
    ensures 2.0 * radius <= limit ==> WithinAxis(b.pos, radius, limit)
  {
    if a.pos - radius < 0.0 then Axis(radius, a.vel * -Restitution)
    else if a.pos + radius > limit then Axis(limit - radius, a.vel * -Restitution)
    else a
  }

  /** On an axis at least one diameter long, a second bounce changes nothing. */
  lemma BounceIdempotent(a: Axis, radius: real, limit: real)
    requires 2.0 * radius <= limit
    ensures Bounce(Bounce(a, radius, limit), radius, limit) == Bounce(a, radius, limit)
  {
  }

  /** On an axis shorter than the diameter no position is inside, so every
      bounce fires again: the circle jumps between the two clamp positions
      and the call is not idempotent. */
  lemma BounceNarrowAxisNeverSettles(a: Axis, radius: real, limit: real)
    requires limit < 2.0 * radius
    ensures var b := Bounce(a, radius, limit);
      && !WithinAxis(b.pos, radius, limit)
      && Bounce(b, radius, limit).pos != b.pos
  {
    var b := Bounce(a, radius, limit);
    assert !WithinAxis(a.pos, radius, limit);
    if b.pos == radius {
      assert b.pos + radius > limit;
    } else {
      assert b.pos == limit - radius;
      assert b.pos - radius < 0.0;
    }
  }

  class Object {
    var position: seq<real>
    var velocity: seq<real>
    var radius: real
    var mass: real

    /** Object(): at rest at the origin with radius 10; the mass is left
        unset, so nothing is promised about it. */
    constructor ()
      ensures position == [0.0, 0.0] && velocity == [0.0, 0.0] && radius == 10.0
    {
      position := [0.0, 0.0];
      velocity := [0.0, 0.0];
      radius := 10.0;
    }

    /** Object(position, velocity, mass, radius): stores its arguments. */
    constructor FromState(position: seq<real>, velocity: seq<real>, mass: real, radius: real)
      ensures this.position == position && this.velocity == velocity
      ensures this.mass == mass && this.radius == radius
    {
      this.position := position;
      this.velocity := velocity;
      this.radius := radius;
      this.mass := mass;
    }

    /** The circle lies inside a screen of the given width and height. */
    predicate InsideScreen(screenWidth: real, screenHeight: real)
      reads this
      requires |position| >= 2
    {
      WithinAxis(position[0], radius, screenWidth) && WithinAxis(position[1], radius, screenHeight)
    }

    /** accelerate: adds (ax, ay) to the velocity; nothing else changes. */
    method Accelerate(ax: real, ay: real)
      requires |velocity| >= 2
      modifies this
      ensures velocity == old(velocity)[0 := old(velocity[0]) + ax][1 := old(velocity[1]) + ay]
      ensures position == old(position) && radius == old(radius) && mass == old(mass)
    {
      velocity := velocity[0 := velocity[0] + ax];
      velocity := velocity[1 := velocity[1] + ay];
    }

    /** updatePos: one Euler step of unit length, position += velocity;
        nothing else changes. */
    method UpdatePos()
      requires |position| >= 2 && |velocity| >= 2
      modifies this
      ensures position == old(position)[0 := old(position[0] + velocity[0])]
                                       [1 := old(position[1] + velocity[1])]
      ensures velocity == old(velocity) && radius == old(radius) && mass == old(mass)
    {
      position := position[0 := position[0] + velocity[0]];
      position := position[1 := position[1] + velocity[1]];
    }

    /** checkCollisionWithScreen: each axis bounces independently (the
        vertical one against the height, the horizontal one against the
        width); an object inside the screen is left as it is, and on a screen
        at least one diameter wide and high the object ends inside it. */
    method CheckCollisionWithScreen(screenWidth: real, screenHeight: real)
      requires |position| >= 2 && |velocity| >= 2
      modifies this
      ensures var x := Bounce(Axis(old(position[0]), old(velocity[0])), radius, screenWidth);
              var y := Bounce(Axis(old(position[1]), old(velocity[1])), radius, screenHeight);
              && position == old(position)[0 := x.pos][1 := y.pos]
              && velocity == old(velocity)[0 := x.vel][1 := y.vel]
      ensures radius == old(radius) && mass == old(mass)
      ensures old(InsideScreen(screenWidth, screenHeight)) ==>
        position == old(position) && velocity == old(velocity)
      ensures 2.0 * radius <= screenWidth && 2.0 * radius <= screenHeight ==>
        InsideScreen(screenWidth, screenHeight)
    {
      // Vertical bounds.
      if position[1] - radius < 0.0 {
        position := position[1 := radius];
        velocity := velocity[1 := velocity[1] * -Restitution];
      } else if position[1] + radius > screenHeight {
        position := position[1 := screenHeight - radius];
        velocity := velocity[1 := velocity[1] * -Restitution];
      }
      // Horizontal bounds.
      if position[0] - radius < 0.0 {
        position := position[0 := radius];
        velocity := velocity[0 := velocity[0] * -Restitution];
      } else if position[0] + radius > screenWidth {
        position := position[0 := screenWidth - radius];
        velocity := velocity[0 := velocity[0] * -Restitution];
      }
    }
  }
}
