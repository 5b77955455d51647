# Flappy bird: the frame simulation, verified

This project models the game logic of `flappy-bird.js`, a canvas Flappy Bird
clone, in Dafny. The drawing and page code is left out. What remains:

- **Bird physics** (`BirdPhysics`, file `bird.dfy`). Each frame adds gravity to
  the velocity and the velocity to the height. The drawing tilt is derived from
  the velocity and clamped. A bird that would rise above the top edge is pinned
  there with its velocity zeroed.
- **Pipe stream** (`PipeStream`, file `pipes.dfy`). Every 90th frame spawns a
  pipe at the right edge, with a gap height taken from a random number. Then a
  `forEach` pass moves every pipe left, scores a pipe once its trailing edge is
  left of the bird, and removes it with `splice` once it is off screen.
- **Collision** (`Collision`, file `collision.dfy`). The bird touches the
  ground, or overlaps some pipe's columns without being inside its gap.
- **Session** (`Session`, file `game.dfy`). The class `Game` has one field per
  global of the script: the state (start, playing or over), score, high score,
  bird, pipe list, frame counter and ground scroll offset. Its methods are the
  script's functions: `updateBird`, `updatePipes`, `jump`, `startGame`,
  `gameOver`, the update part of `gameLoop`, and the key and click handler.
  The constants are in `World` (file `world.dfy`).

Positions are exact `real`s. The canvas width and height are constructor
parameters. The random number behind a spawn is a parameter `r` with
`0 <= r < 1`. One call of `Game.Frame` is one animation frame.

## How the pipe pass is modelled

`updatePipes` calls `splice(index, 1)` while `forEach` walks the same array.
The model keeps JavaScript's rules for this:

- the range of indices is fixed when the pass starts;
- an index past the live array's end is a hole and is skipped;
- after a removal, the next pipe shifts into the freed index, so it is not
  visited in that frame.

There are two definitions of the pass, and a lemma proves they agree:

- `ForEachFrom` follows the code index by index. `Game.ForEach` runs the same
  loop and is proved against it.
- The reference definition gives each pipe a fate: moved, removed or skipped
  (`Fates`). `Apply` gives the resulting list and `Gain` the points scored.
  `ForEachMatchesFates` proves the index-based pass equals the fate-based one.

The fate lemmas then state the splice behaviour directly:

- a pipe is skipped exactly when the pipe before it was removed;
- a visited pipe is removed exactly when it is off screen after its move;
- the kept pipes stay in order and nothing is added;
- a skipped pipe is neither moved nor scored.

Four points where the code behaves differently from a first reading:

- Removal is not an index-stable "drop the off-screen pipes". The pipe after a
  removed one is skipped for that frame, so it ends up 3 units further right.
- A pipe spawned in a frame is moved in that same frame only if the pipe
  before it is not removed in that frame (`SpawnedPipeLast`).
- The gap's top lies in `[50, height - 260]` only when `height >= 310`. On a
  shorter canvas the formula puts it in `(height - 260, 50]`
  (`SpawnTopHeight`).
- Space and click call `startGame` only from the start screen. From the over
  screen they do nothing. The start and restart buttons call `startGame`
  directly, from any state.

## Model

| member | source | states |
|---|---|---|
| `BirdPhysics.Rotation` | flappy-bird.js:117 | the tilt is velocity/10 for velocities in [-5, 5], otherwise -0.5 or 0.5, so it always lies in [-0.5, 0.5] |
| `BirdPhysics.StepBird` | flappy-bird.js:113-123 | normally velocity' = velocity + 0.5 and y' = y + velocity'; if that gives y' < 15, then y' = 15 and velocity' = 0; always y' >= 15; the tilt is taken from the velocity before the pin; x is unchanged |
| `PipeStream.SpawnTopHeight` | flappy-bird.js:127 | for r in [0, 1): 50 <= top <= height - 260 when height >= 310 (strictly below when height > 310); height - 260 < top <= 50 when height < 310 |
| `PipeStream.NewPipe` | flappy-bird.js:127-132 | a spawned pipe starts at the right edge, unscored, with its gap in range; on a canvas of height >= 310 the gap ends at least 50 above the ground |
| `PipeStream.Spawn` | flappy-bird.js:126-133 | a pipe is appended exactly when frameCount % 90 == 0, and the list is otherwise unchanged |
| `PipeStream.VisitPipe` | flappy-bird.js:136-142 | a visit moves the pipe 3 left and keeps its gap; it scores exactly when the pipe is unscored and its trailing edge is left of the bird; afterwards the pipe is scored iff it was scored before or scored now |
| `PipeStream.ForEachFrom` | flappy-bird.js:135-147 | the index-by-index pass with splice; it never lengthens the list; the score never decreases and rises by at most one per remaining index |
| `PipeStream.Fates` | flappy-bird.js:135-147 | one fate per pipe; the first pipe is skipped iff the pass starts in skip mode |
| `PipeStream.FatesRule` | flappy-bird.js:144-146 | a pipe is skipped iff the one before it was removed; a pipe that is not skipped is removed iff it is off screen after its move |
| `PipeStream.HolesSkipped` | flappy-bird.js:135 | indices past the live array's end change nothing |
| `PipeStream.ForEachMatchesFates` | flappy-bird.js:135-147 | the index-based forEach/splice pass equals the fate-based reference, both for the list and for the score |
| `PipeStream.ApplyLength` | flappy-bird.js:144-146 | the pass leaves exactly the pipes that were not removed: nothing is added or lost |
| `PipeStream.ApplyAt` | flappy-bird.js:135-147 | each kept pipe keeps its relative order, at index i minus the number removed before it; it is moved if it was visited and untouched if it was skipped |
| `PipeStream.ApplyKeepsGaps` | flappy-bird.js:135-147 | the pass never changes a gap, so gaps that were in range stay in range |
| `PipeStream.ScoreConservation` | flappy-bird.js:138-142 | scored pipes before the pass, plus the points gained, equal scored pipes after the pass plus scored pipes removed: each point belongs to exactly one pipe |
| `PipeStream.GainBound` | flappy-bird.js:138-142 | a scored pipe never scores again: a pass gains at most one point per unscored pipe |
| `PipeStream.StepPipes` | flappy-bird.js:125-148 | one frame of updatePipes (spawn check, then the forEach pass) equals the fate-based result on the spawned list |
| `PipeStream.StepPipesAccounts` | flappy-bird.js:125-148 | a frame's points equal the pipes newly scored, whether kept or removed; all gaps stay in range after a spawn |
| `PipeStream.SpawnedPipeLast` | flappy-bird.js:126-147 | on a spawn frame the new pipe ends the list; it is moved in that frame unless the pipe before it was removed |
| `PipeStream.SpliceSkipExample` | flappy-bird.js:144-146 | an example: after the first of two pipes is removed, the second keeps its position and its unscored flag for the frame |
| `Collision.HitsSomePipe` | flappy-bird.js:155-163 | the loop with early return is true iff some pipe overlaps the bird horizontally and the bird is outside that pipe's gap |
| `Collision.CheckCollision` | flappy-bird.js:150-164 | true iff bird.y + 15 > ground.y, or some pipe has bird.x + 15 > x and bird.x - 15 < x + 80, and bird.y - 15 < topHeight or bird.y + 15 > topHeight + 150; being a function, it reads state and changes none |
| `Session.ScrollGround` | flappy-bird.js:93-96 | the ground offset moves 3 left and wraps to 0 once it reaches -20, so it stays in (-20, 0] |
| `Session.Game.constructor` | flappy-bird.js:11-29 | the start state: score 0, the stored high score, the bird at (100, height/2) at rest, no pipes, frame 0 |
| `Session.Game.UpdateBird` | flappy-bird.js:113-123 | the bird becomes StepBird of the old bird; the game invariant is kept |
| `Session.Game.ForEach` | flappy-bird.js:135-147 | the while loop over the indices fixed at the start, with splice, computes what ForEachFrom specifies |
| `Session.Game.UpdatePipes` | flappy-bird.js:125-148 | pipes and score become StepPipes of the old ones; the score never decreases; score = scored pipes on the list + scored pipes removed this game |
| `Session.Game.Jump` | flappy-bird.js:166-170 | while playing, the velocity becomes exactly -8 whatever it was; in any other state nothing changes |
| `Session.Game.StartGame` | flappy-bird.js:172-182 | from any state: playing, score 0, bird at height/2 with velocity 0, no pipes, frame 0; the high score is kept |
| `Session.Game.GameOver` | flappy-bird.js:184-193 | the state becomes over and highScore = max(highScore, score) |
| `Session.Game.Press` | flappy-bird.js:217-234 | the space key and a click start the game from the start screen; while playing they only set the velocity to -8; on the over screen they change nothing |
| `Session.Game.Frame` | flappy-bird.js:195-215 | the frame counter grows by one and the ground scrolls in every state; bird, pipes and score change only while playing, and then by StepBird and StepPipes; the state becomes over iff the collision test holds, and the high score then follows gameOver; the score never decreases |

The game invariant `Game.Valid` holds in every state the methods reach:

- the bird is at x = 100;
- its tilt is in [-0.5, 0.5];
- its height is at least min(15, height/2);
- the ground offset is in (-20, 0];
- every pipe's gap is in the spawn range;
- the score equals the scored pipes on the list plus the scored pipes removed
  in this game;
- on the over screen the score is at most the high score.

## Left out

- Drawing: `drawBird`, `drawPipe`, the fill calls of `drawGround`, the cloud
  positions of `drawBackground`, and every `ctx` call. This is presentation
  only. The ground offset update inside `drawGround` is modelled as
  `ScrollGround`.
- The DOM's text and class updates, `requestAnimationFrame` scheduling and
  listener registration. These are host glue. The handlers' logic is `Press`,
  and the start and restart buttons are `StartGame`.
- `localStorage`: reading the stored high score is the constructor parameter
  `savedHighScore`, which is 0 when nothing is stored. The write in
  `gameOver` is not modelled. The stored value is a string in JavaScript, and
  its comparison with the score by coercion is not modelled.
- IEEE floating-point rounding: positions are exact reals.
- The distribution of `Math.random`: only its range [0, 1) is used.
- Wall-clock timing: one `Frame` call is one frame.
- Session.Game.UpdatePipes: it requires the playing state, which is the only
  state in which `gameLoop` calls it. This keeps the over-screen invariant
  (score at most the high score) simple.
- Session.Game.ForEach: the pass works on a copy of the list and the score,
  and `UpdatePipes` writes them back. Nothing else reads them during the pass,
  so this is the same as changing the array in place.
