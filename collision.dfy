/** The read-only collision test run after every playing frame. */
module Collision {
  import opened World

  /** The bird's box and the pipe's columns overlap horizontally. */
  predicate OverlapsPipe(b: Bird, p: Pipe) {
    b.x + BIRD_SIZE / 2.0 > p.x && b.x - BIRD_SIZE / 2.0 < p.x + PIPE_WIDTH
  }

  /** The bird's box reaches above the gap or below it. */
  predicate OutsideGap(b: Bird, p: Pipe) {
    b.y - BIRD_SIZE / 2.0 < p.topHeight || b.y + BIRD_SIZE / 2.0 > p.topHeight + PIPE_GAP
  }

  /** The loop over the pipes, first to last, returning at the first pipe hit. */
  function HitsSomePipe(b: Bird, ps: seq<Pipe>): (hit: bool)
    ensures hit <==> exists i :: 0 <= i < |ps| && OverlapsPipe(b, ps[i]) && OutsideGap(b, ps[i])
  {
    if ps == [] then false
    else if OverlapsPipe(b, ps[0]) && OutsideGap(b, ps[0]) then true
    else
      var hit := HitsSomePipe(b, ps[1..]);
      assert forall i :: 1 <= i < |ps| ==> ps[i] == ps[1..][i - 1];
      assert hit ==> exists i :: 1 <= i < |ps| && OverlapsPipe(b, ps[i]) && OutsideGap(b, ps[i]);
      hit
  }

  /** The bird hits the ground, or hits some pipe outside its gap. */
  function CheckCollision(b: Bird, groundY: real, ps: seq<Pipe>): (hit: bool)
    ensures hit <==>
              b.y + BIRD_SIZE / 2.0 > groundY ||
              exists i :: 0 <= i < |ps| && OverlapsPipe(b, ps[i]) && OutsideGap(b, ps[i])
  {
    b.y + BIRD_SIZE / 2.0 > groundY || HitsSomePipe(b, ps)
  }
}
