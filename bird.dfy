/** The bird's per-frame physics. */
module BirdPhysics {
  import opened World

  /** The drawing tilt, the velocity scaled by 0.1 and clamped to [-0.5, 0.5]. */
  function Rotation(velocity: real): (rot: real)
    ensures -0.5 <= rot <= 0.5
    ensures -5.0 <= velocity <= 5.0 ==> rot == velocity / 10.0
    ensures velocity < -5.0 ==> rot == -0.5
    ensures velocity > 5.0 ==> rot == 0.5
  {
    Min(Max(velocity * 0.1, -0.5), 0.5)
  }

  /**
    One frame of the bird: gravity is added to the velocity, the velocity to the
    position, and a bird that would rise above the top edge is pinned there with
    its velocity zeroed. The tilt is taken from the velocity before that pin.
   */
  function StepBird(b: Bird): (r: Bird)
    ensures r.x == b.x
    ensures r.rotation == Rotation(b.velocity + GRAVITY)
    ensures b.y + b.velocity + GRAVITY >= BIRD_SIZE / 2.0 ==>
              r.velocity == b.velocity + GRAVITY && r.y == b.y + r.velocity
    ensures b.y + b.velocity + GRAVITY < BIRD_SIZE / 2.0 ==>
              r.y == BIRD_SIZE / 2.0 && r.velocity == 0.0
    ensures r.y >= BIRD_SIZE / 2.0
    ensures -0.5 <= r.rotation <= 0.5
  {
    var velocity := b.velocity + GRAVITY;
    var y := b.y + velocity;
    var rotation := Rotation(velocity);
    if y < BIRD_SIZE / 2.0 then Bird(b.x, BIRD_SIZE / 2.0, 0.0, rotation)
    else Bird(b.x, y, velocity, rotation)
  }
}
