/**
  The game's constants and the records the simulation works on.
  Positions and velocities are exact reals: floating-point rounding is not modelled.
 */
module World {

  const GRAVITY: real := 0.5
  const JUMP_STRENGTH: real := -8.0
  const PIPE_WIDTH: real := 80.0
  const PIPE_GAP: real := 150.0
  const PIPE_SPEED: real := 3.0
  const BIRD_SIZE: real := 30.0

  /** The bird's fixed horizontal position. */
  const BIRD_X: real := 100.0
  /** The height of the ground strip at the bottom of the canvas. */
  const GROUND_HEIGHT: real := 60.0
  /** A pipe is spawned on every frame whose number is a multiple of this. */
  const SPAWN_INTERVAL: nat := 90

  /** The bird; `rotation` is only used for drawing. */
  datatype Bird = Bird(x: real, y: real, velocity: real, rotation: real)

  /** A pipe: its left edge `x`, the height of its upper part, and whether it has been scored. */
  datatype Pipe = Pipe(x: real, topHeight: real, passed: bool)

  datatype GameState = Start | Playing | Over

  /** Math.min and Math.max on two numbers. */
  function Min(a: real, b: real): real { if a <= b then a else b }
  function Max(a: real, b: real): real { if a >= b then a else b }
}
