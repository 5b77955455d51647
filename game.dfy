/**
  The session: the game's globals as the fields of one object, and the
  operations that change them — the frame step, the flap, starting a game and
  ending one, and the key and click handler.
 */
module Session {
  import opened World
  import opened BirdPhysics
  import opened PipeStream
  import opened Collision

  /** One frame of the ground's scroll offset: three to the left, wrapping back to 0 at -20. */
  function ScrollGround(gx: real): (gx': real)
    ensures -20.0 < gx'
    ensures gx <= PIPE_SPEED ==> gx' <= 0.0
    ensures gx - PIPE_SPEED > -20.0 ==> gx' == gx - PIPE_SPEED
    ensures gx - PIPE_SPEED <= -20.0 ==> gx' == 0.0
  {
    var moved := gx - PIPE_SPEED;
    if moved <= -20.0 then 0.0 else moved
  }

  class Game {
    /** The canvas size. */
    const width: real
    const height: real
    /** The top of the ground strip. */
    const groundY: real

    var gameState: GameState
    var score: nat
    var highScore: nat
    var bird: Bird
    var pipes: seq<Pipe>
    var frameCount: nat
    /** The ground's scroll offset. */
    var groundX: real
    /** The scored pipes of this game that have been removed, so that `score` can be accounted for. */
    ghost var retired: nat

    ghost predicate Valid()
      reads this
    {
      width > 0.0 && height > 0.0 && groundY == height - GROUND_HEIGHT &&
      bird.x == BIRD_X &&
      -0.5 <= bird.rotation <= 0.5 &&
      bird.y >= Min(BIRD_SIZE / 2.0, height / 2.0) &&
      -20.0 < groundX <= 0.0 &&
      score == PassedCount(pipes) + retired &&
      (forall i :: 0 <= i < |pipes| ==> GapInRange(height, pipes[i].topHeight)) &&
      (gameState == Over ==> score <= highScore)
    }

    /** The state right after startGame. */
    ghost predicate NewRound()
      reads this
    {
      gameState == Playing && score == 0 && bird.y == height / 2.0 && bird.velocity == 0.0 &&
      pipes == [] && frameCount == 0
    }

    /** The page load: `savedHighScore` is the stored high score, 0 when there is none. */
    constructor (width: real, height: real, savedHighScore: nat)
      requires width > 0.0 && height > 0.0
      ensures Valid()
      ensures this.width == width && this.height == height
      ensures gameState == Start && score == 0 && highScore == savedHighScore
      ensures bird == Bird(BIRD_X, height / 2.0, 0.0, 0.0) && pipes == [] && frameCount == 0 && groundX == 0.0
    {
      this.width := width;
      this.height := height;
      groundY := height - GROUND_HEIGHT;
      gameState := Start;
      score := 0;
      highScore := savedHighScore;
      bird := Bird(BIRD_X, height / 2.0, 0.0, 0.0);
      pipes := [];
      frameCount := 0;
      groundX := 0.0;
      retired := 0;
    }

    /** updateBird. */
    method UpdateBird()
      requires Valid()
      modifies this`bird
      ensures Valid()
      ensures bird == StepBird(old(bird))
    {
      bird := bird.(velocity := bird.velocity + GRAVITY);
      bird := bird.(y := bird.y + bird.velocity);
      bird := bird.(rotation := Min(Max(bird.velocity * 0.1, -0.5), 0.5));
      if bird.y < BIRD_SIZE / 2.0 {
        bird := bird.(y := BIRD_SIZE / 2.0, velocity := 0.0);
      }
    }

    /** updatePipes, which the frame step runs only while playing; `r` is the random number a spawn draws. */
    method UpdatePipes(r: real)
      requires Valid() && gameState == Playing && 0.0 <= r < 1.0
      modifies this`pipes, this`score, this`retired
      ensures Valid()
      ensures Sweep(pipes, score) == StepPipes(old(pipes), frameCount, width, height, bird.x, r, old(score))
      ensures score >= old(score)
    {
      if frameCount % SPAWN_INTERVAL == 0 {
        var topHeight := r * (height - PIPE_GAP - GROUND_HEIGHT - 100.0) + 50.0;
        pipes := pipes + [Pipe(width, topHeight, false)];
        assert pipes == Spawn(old(pipes), frameCount, width, height, r);
      }
      pipes, score := ForEach(pipes, score, bird.x);
      StepPipesAccounts(old(pipes), frameCount, width, height, bird.x, r, old(score));
      retired := retired + StepRetired(old(pipes), frameCount, width, height, bird.x, r);
    }

    /**
      The forEach callback of updatePipes over every index of the list it
      starts with: move, score, and splice out a pipe that is off screen.
     */
    static method ForEach(pipes: seq<Pipe>, score: nat, birdX: real) returns (pipes': seq<Pipe>, score': nat)
      ensures Sweep(pipes', score') == ForEachFrom(pipes, 0, |pipes|, birdX, score)
    {
      pipes', score' := pipes, score;
      // forEach fixes the range of indices before the first callback
      var length := |pipes|;
      var index := 0;
      while index < length
        invariant index <= length
        invariant ForEachFrom(pipes', index, length, birdX, score') == ForEachFrom(pipes, 0, length, birdX, score)
      {
        ghost var before, scoreBefore := pipes', score';
        if index < |pipes'| {
          pipes' := pipes'[index := pipes'[index].(x := pipes'[index].x - PIPE_SPEED)];
          if !pipes'[index].passed && pipes'[index].x + PIPE_WIDTH < birdX {
            pipes' := pipes'[index := pipes'[index].(passed := true)];
            score' := score' + 1;
          }
          ghost var v := VisitPipe(before[index], birdX);
          assert pipes' == before[index := v.pipe];
          if pipes'[index].x + PIPE_WIDTH < 0.0 {
            pipes' := pipes'[..index] + pipes'[index + 1..];
          }
        }
        assert ForEachFrom(before, index, length, birdX, scoreBefore) == ForEachFrom(pipes', index + 1, length, birdX, score');
        index := index + 1;
      }
    }

    /** jump: a flap, honoured only while playing. */
    method Jump()
      requires Valid()
      modifies this`bird
      ensures Valid()
      ensures bird == if gameState == Playing then old(bird).(velocity := JUMP_STRENGTH) else old(bird)
    {
      if gameState == Playing {
        bird := bird.(velocity := JUMP_STRENGTH);
      }
    }

    /** startGame, reached from the start and restart buttons in any state. */
    method StartGame()
      requires Valid()
      modifies this`gameState, this`score, this`bird, this`pipes, this`frameCount, this`retired
      ensures Valid()
      ensures NewRound()
      ensures highScore == old(highScore) && groundX == old(groundX)
      ensures bird.x == old(bird.x) && bird.rotation == old(bird.rotation)
    {
      gameState := Playing;
      score := 0;
      bird := bird.(y := height / 2.0);
      bird := bird.(velocity := 0.0);
      pipes := [];
      frameCount := 0;
      retired := 0;
    }

    /** gameOver: the state becomes over and a new best score is kept. */
    method GameOver()
      requires Valid()
      modifies this`gameState, this`highScore
      ensures Valid()
      ensures gameState == Over
      ensures highScore == if score > old(highScore) then score else old(highScore)
      ensures highScore >= old(highScore) && highScore >= score
    {
      gameState := Over;
      if score > highScore {
        highScore := score;
      }
    }

    /** The space key and canvas click handler: start from the start screen, otherwise flap. */
    method Press()
      requires Valid()
      modifies this
      ensures Valid()
      ensures old(gameState) == Start ==>
                NewRound() && highScore == old(highScore) && groundX == old(groundX) &&
                bird.x == old(bird.x) && bird.rotation == old(bird.rotation)
      ensures old(gameState) == Playing ==>
                bird == old(bird).(velocity := JUMP_STRENGTH) && gameState == Playing && score == old(score) &&
                highScore == old(highScore) && pipes == old(pipes) && frameCount == old(frameCount) &&
                groundX == old(groundX)
      ensures old(gameState) == Over ==> unchanged(this)
    {
      if gameState == Start {
        StartGame();
      } else {
        Jump();
      }
    }

    /**
      gameLoop's update: while playing, the bird, then the pipes, then the
      collision test; in every state the ground scrolls and the frame counter
      goes up. `r` is the random number a spawn in this frame would use.
     */
    method Frame(r: real)
      requires Valid() && 0.0 <= r < 1.0
      modifies this
      ensures Valid()
      ensures frameCount == old(frameCount) + 1
      ensures groundX == ScrollGround(old(groundX))
      ensures old(gameState) != Playing ==>
                gameState == old(gameState) && bird == old(bird) && pipes == old(pipes) &&
                score == old(score) && highScore == old(highScore)
      ensures old(gameState) == Playing ==>
                bird == StepBird(old(bird)) &&
                Sweep(pipes, score) == StepPipes(old(pipes), old(frameCount), width, height, BIRD_X, r, old(score)) &&
                gameState == (if CheckCollision(bird, groundY, pipes) then Over else Playing) &&
                highScore == (if gameState == Over && score > old(highScore) then score else old(highScore))
      ensures score >= old(score)
    {
      if gameState == Playing {
        UpdateBird();
        UpdatePipes(r);
        if CheckCollision(bird, groundY, pipes) {
          GameOver();
        }
      }
      groundX := ScrollGround(groundX);
      frameCount := frameCount + 1;
    }
  }
}
