/**
  The pipe stream: spawning, and the forEach pass that moves, scores and
  removes pipes. The pass removes pipes with splice while forEach walks the
  same array, and it is modelled as written: the range of indices is fixed
  when the pass begins, indices past the live array's end are skipped, and
  the pipe that shifts into a removed pipe's index is not visited that frame.
 */
module PipeStream {
  import opened World

  /** The height of a new pipe's upper part, for a random number r in [0, 1). */
  function SpawnTopHeight(height: real, r: real): (top: real)
    requires 0.0 <= r < 1.0
    ensures height >= 310.0 ==> 50.0 <= top <= height - 260.0
    ensures height > 310.0 ==> top < height - 260.0
    ensures height < 310.0 ==> height - 260.0 < top <= 50.0
    ensures GapInRange(height, top)
  {
    var span := height - PIPE_GAP - GROUND_HEIGHT - 100.0;
    assert span == height - 310.0;
    SpanBounds(r, span);
    var top := r * span + 50.0;
    assert height > 310.0 ==> top < height - 260.0;
    top
  }

  /** For r in [0, 1), r * span lies between 0 and span, reaching 0 and never span unless span is 0. */
  lemma SpanBounds(r: real, span: real)
    requires 0.0 <= r < 1.0
    ensures span >= 0.0 ==> 0.0 <= r * span <= span
    ensures span > 0.0 ==> r * span < span
    ensures span < 0.0 ==> span < r * span <= 0.0
  {
    if span > 0.0 {
      assert (1.0 - r) * span > 0.0;
    } else if span < 0.0 {
      assert (1.0 - r) * (-span) > 0.0;
      assert r * (-span) >= 0.0;
    }
  }

  /**
    Where a spawned gap can lie on a canvas of this height: between 50 and
    height - 260, which leaves 50 above the gap and 50 between gap and ground
    when height >= 310.
   */
  predicate GapInRange(height: real, top: real) {
    Min(50.0, height - 260.0) <= top <= Max(50.0, height - 260.0)
  }

  /** A new pipe: at the right edge, not yet scored. */
  function NewPipe(width: real, height: real, r: real): (p: Pipe)
    requires 0.0 <= r < 1.0
    ensures p.x == width && !p.passed
    ensures GapInRange(height, p.topHeight)
    ensures height > 310.0 ==> 50.0 <= p.topHeight < height - 260.0
    ensures height >= 310.0 ==> p.topHeight + PIPE_GAP + 50.0 <= height - GROUND_HEIGHT
  {
    Pipe(width, SpawnTopHeight(height, r), false)
  }

  /** The pipe list after the spawn check of the frame with this number. */
  function Spawn(ps: seq<Pipe>, frameCount: nat, width: real, height: real, r: real): (qs: seq<Pipe>)
    requires 0.0 <= r < 1.0
    ensures frameCount % SPAWN_INTERVAL == 0 ==> |qs| == |ps| + 1 && qs[..|ps|] == ps && qs[|ps|] == NewPipe(width, height, r)
    ensures frameCount % SPAWN_INTERVAL != 0 ==> qs == ps
  {
    if frameCount % SPAWN_INTERVAL == 0 then ps + [NewPipe(width, height, r)] else ps
  }

  /** What one callback does to its pipe before the removal test. */
  datatype Visit = Visit(pipe: Pipe, scored: bool)

  /** Move the pipe left, then score it if it is unscored and its trailing edge is left of the bird. */
  function VisitPipe(p: Pipe, birdX: real): (v: Visit)
    ensures v.pipe.x == p.x - PIPE_SPEED && v.pipe.topHeight == p.topHeight
    ensures v.scored <==> !p.passed && p.x - PIPE_SPEED + PIPE_WIDTH < birdX
    ensures v.pipe.passed <==> p.passed || v.scored
  {
    var moved := p.(x := p.x - PIPE_SPEED);
    if !moved.passed && moved.x + PIPE_WIDTH < birdX then Visit(moved.(passed := true), true)
    else Visit(moved, false)
  }

  /** The pipe is entirely left of the canvas. */
  predicate OffScreen(p: Pipe) {
    p.x + PIPE_WIDTH < 0.0
  }

  /** The pipe list and the score after (part of) a pass. */
  datatype Sweep = Sweep(pipes: seq<Pipe>, score: nat)

  /**
    The forEach pass from index k on, over the live array ps, where `end` is the
    length the array had when the pass began.
   */
  function ForEachFrom(ps: seq<Pipe>, k: nat, end: nat, birdX: real, score: nat): (s: Sweep)
    ensures |s.pipes| <= |ps|
    ensures score <= s.score <= score + (if k < end then end - k else 0)
    decreases end - k
  {
    if k >= end then Sweep(ps, score)
    else if k >= |ps| then ForEachFrom(ps, k + 1, end, birdX, score)
    else
      var v := VisitPipe(ps[k], birdX);
      var visited := ps[k := v.pipe];
      var score' := if v.scored then score + 1 else score;
      if OffScreen(v.pipe) then ForEachFrom(visited[..k] + visited[k + 1..], k + 1, end, birdX, score')
      else ForEachFrom(visited, k + 1, end, birdX, score')
  }

  /** What the pass does to one pipe of the list it started with. */
  datatype Fate = Moved | Removed | Skipped

  /**
    The fate of each pipe in a pass over ps, independent of array indices: a
    pipe is skipped exactly when the one before it was removed (the first one
    when `skip` holds); every other pipe is visited and then removed exactly
    when it is off screen after its move.
   */
  function Fates(ps: seq<Pipe>, skip: bool, birdX: real): (fs: seq<Fate>)
    ensures |fs| == |ps|
    ensures |ps| > 0 ==> (fs[0] == Skipped <==> skip)
  {
    if ps == [] then []
    else
      var first := if skip then Skipped
                   else if OffScreen(VisitPipe(ps[0], birdX).pipe) then Removed
                   else Moved;
      [first] + Fates(ps[1..], first == Removed, birdX)
  }

  /**
    The fates follow the splice rule: a pipe is skipped exactly when the one
    before it was removed, and a pipe that is not skipped is removed exactly
    when it is off screen after its move.
   */
  lemma {:induction false} FatesRule(ps: seq<Pipe>, skip: bool, birdX: real, i: nat)
    requires i < |ps|
    ensures var fs := Fates(ps, skip, birdX);
            (fs[i] == Skipped <==> if i == 0 then skip else fs[i - 1] == Removed) &&
            (fs[i] != Skipped ==> (fs[i] == Removed <==> OffScreen(VisitPipe(ps[i], birdX).pipe)))
  {
    var fs := Fates(ps, skip, birdX);
    if i > 0 {
      var rest := ps[1..];
      FatesRule(rest, fs[0] == Removed, birdX, i - 1);
      assert fs[1..] == Fates(rest, fs[0] == Removed, birdX);
      assert fs[i] == fs[1..][i - 1] && ps[i] == rest[i - 1];
      if i > 1 {
        assert fs[i - 1] == fs[1..][i - 2];
      }
    }
  }

  /** What a pipe with this fate leaves in the list. */
  function Outcome(p: Pipe, f: Fate, birdX: real): seq<Pipe> {
    match f
    case Moved => [VisitPipe(p, birdX).pipe]
    case Removed => []
    case Skipped => [p]
  }

  /** The list a pass leaves behind, given each pipe's fate. */
  function Apply(ps: seq<Pipe>, fs: seq<Fate>, birdX: real): seq<Pipe>
    requires |fs| == |ps|
  {
    if ps == [] then [] else Outcome(ps[0], fs[0], birdX) + Apply(ps[1..], fs[1..], birdX)
  }

  /** The points a pass scores: one for each visited pipe that scores on its visit. */
  function Gain(ps: seq<Pipe>, fs: seq<Fate>, birdX: real): nat
    requires |fs| == |ps|
  {
    if ps == [] then 0
    else (if fs[0] != Skipped && VisitPipe(ps[0], birdX).scored then 1 else 0) + Gain(ps[1..], fs[1..], birdX)
  }

  function RemovedCount(fs: seq<Fate>): nat {
    if fs == [] then 0 else (if fs[0] == Removed then 1 else 0) + RemovedCount(fs[1..])
  }

  function PassedCount(ps: seq<Pipe>): nat {
    if ps == [] then 0 else (if ps[0].passed then 1 else 0) + PassedCount(ps[1..])
  }

  /** The removed pipes that were scored when they left (all of them, once the bird is right of the canvas's left edge). */
  function RetiredCount(ps: seq<Pipe>, fs: seq<Fate>, birdX: real): nat
    requires |fs| == |ps|
  {
    if ps == [] then 0
    else (if fs[0] == Removed && VisitPipe(ps[0], birdX).pipe.passed then 1 else 0) + RetiredCount(ps[1..], fs[1..], birdX)
  }

  /** Past the live array's end, the pass only skips holes. */
  lemma {:induction false} HolesSkipped(ps: seq<Pipe>, k: nat, end: nat, birdX: real, score: nat)
    requires k >= |ps|
    ensures ForEachFrom(ps, k, end, birdX, score) == Sweep(ps, score)
    decreases end - k
  {
    if k < end {
      HolesSkipped(ps, k + 1, end, birdX, score);
    }
  }

  /** Apply and Gain unfold on a list with a first element. */
  lemma ApplyGainCons(p: Pipe, f: Fate, ps: seq<Pipe>, fs: seq<Fate>, birdX: real)
    requires |fs| == |ps|
    ensures Apply([p] + ps, [f] + fs, birdX) == Outcome(p, f, birdX) + Apply(ps, fs, birdX)
    ensures Gain([p] + ps, [f] + fs, birdX)
              == (if f != Skipped && VisitPipe(p, birdX).scored then 1 else 0) + Gain(ps, fs, birdX)
  {
    assert ([p] + ps)[1..] == ps;
    assert ([f] + fs)[1..] == fs;
  }

  /** One step of the pass at index |done| over the pipe todo[0]. */
  lemma ForEachStep(done: seq<Pipe>, todo: seq<Pipe>, end: nat, birdX: real, score: nat)
    requires |done| + |todo| <= end && todo != []
    ensures var v := VisitPipe(todo[0], birdX);
            var score' := if v.scored then score + 1 else score;
            ForEachFrom(done + todo, |done|, end, birdX, score)
              == if OffScreen(v.pipe) then ForEachFrom(done + todo[1..], |done| + 1, end, birdX, score')
                 else ForEachFrom((done + [v.pipe]) + todo[1..], |done| + 1, end, birdX, score')
  {
    var ps := done + todo;
    var k := |done|;
    var v := VisitPipe(todo[0], birdX);
    assert ps[k] == todo[0];
    var visited := ps[k := v.pipe];
    assert visited[..k] + visited[k + 1..] == done + todo[1..];
    assert visited == (done + [v.pipe]) + todo[1..];
  }

  /**
    The index-based pass agrees with the fates: with `done` already processed
    and `todo` still ahead of index |done|, the pass appends the outcomes of
    `todo` and adds its gain, provided the range is long enough to reach them.
   */
  lemma {:induction false} ForEachMatchesFates(done: seq<Pipe>, todo: seq<Pipe>, end: nat, birdX: real, score: nat)
    requires |done| + |todo| <= end
    ensures var fs := Fates(todo, false, birdX);
            ForEachFrom(done + todo, |done|, end, birdX, score)
              == Sweep(done + Apply(todo, fs, birdX), score + Gain(todo, fs, birdX))
    decreases |todo|, 1
  {
    if todo == [] {
      assert done + todo == done;
      HolesSkipped(done, |done|, end, birdX, score);
    } else if OffScreen(VisitPipe(todo[0], birdX).pipe) {
      MatchesRemoved(done, todo, end, birdX, score);
    } else {
      MatchesMoved(done, todo, end, birdX, score);
    }
  }

  /** ForEachMatchesFates when the pipe at index |done| is removed. */
  lemma {:induction false} MatchesRemoved(done: seq<Pipe>, todo: seq<Pipe>, end: nat, birdX: real, score: nat)
    requires |done| + |todo| <= end && todo != [] && OffScreen(VisitPipe(todo[0], birdX).pipe)
    ensures var fs := Fates(todo, false, birdX);
            ForEachFrom(done + todo, |done|, end, birdX, score)
              == Sweep(done + Apply(todo, fs, birdX), score + Gain(todo, fs, birdX))
    decreases |todo|, 0
  {
    var v := VisitPipe(todo[0], birdX);
    var score' := if v.scored then score + 1 else score;
    var tail := todo[1..];
    ForEachStep(done, todo, end, birdX, score);
    var fs1 := Fates(tail, true, birdX);
    assert Fates(todo, false, birdX) == [Removed] + fs1 by {
      assert todo == [todo[0]] + tail;
    }
    ApplyGainCons(todo[0], Removed, tail, fs1, birdX);
    assert todo == [todo[0]] + tail;
    if tail == [] {
      assert done + tail == done;
      HolesSkipped(done, |done| + 1, end, birdX, score');
    } else {
      MatchesSkipped(done, tail, end, birdX, score');
    }
  }

  /** The pipe that shifts into a removed pipe's index stays as it is, then the pass goes on. */
  lemma {:induction false} MatchesSkipped(done: seq<Pipe>, tail: seq<Pipe>, end: nat, birdX: real, score: nat)
    requires |done| + |tail| < end && tail != []
    ensures var fs := Fates(tail, true, birdX);
            ForEachFrom(done + tail, |done| + 1, end, birdX, score)
              == Sweep(done + Apply(tail, fs, birdX), score + Gain(tail, fs, birdX))
    decreases |tail|, 0
  {
    var todo' := tail[1..];
    var done' := done + [tail[0]];
    var fs' := Fates(todo', false, birdX);
    assert tail == [tail[0]] + todo';
    assert Fates(tail, true, birdX) == [Skipped] + fs';
    ApplyGainCons(tail[0], Skipped, todo', fs', birdX);
    assert done + tail == done' + todo';
    ForEachMatchesFates(done', todo', end, birdX, score);
    assert done' + Apply(todo', fs', birdX) == done + ([tail[0]] + Apply(todo', fs', birdX));
  }

  /** ForEachMatchesFates when the pipe at index |done| is moved and kept. */
  lemma {:induction false} MatchesMoved(done: seq<Pipe>, todo: seq<Pipe>, end: nat, birdX: real, score: nat)
    requires |done| + |todo| <= end && todo != [] && !OffScreen(VisitPipe(todo[0], birdX).pipe)
    ensures var fs := Fates(todo, false, birdX);
            ForEachFrom(done + todo, |done|, end, birdX, score)
              == Sweep(done + Apply(todo, fs, birdX), score + Gain(todo, fs, birdX))
    decreases |todo|, 0
  {
    var v := VisitPipe(todo[0], birdX);
    var score' := if v.scored then score + 1 else score;
    var tail := todo[1..];
    var done' := done + [v.pipe];
    ForEachStep(done, todo, end, birdX, score);
    assert A: ForEachFrom(done + todo, |done|, end, birdX, score) == ForEachFrom(done' + tail, |done'|, end, birdX, score');
    var fs' := Fates(tail, false, birdX);
    assert B: Fates(todo, false, birdX) == [Moved] + fs' by {
      assert todo == [todo[0]] + tail;
    }
    ApplyGainCons(todo[0], Moved, tail, fs', birdX);
    assert todo == [todo[0]] + tail;
    assert C: Apply(todo, [Moved] + fs', birdX) == [v.pipe] + Apply(tail, fs', birdX);
    ForEachMatchesFates(done', tail, end, birdX, score');
    assert done' + Apply(tail, fs', birdX) == done + ([v.pipe] + Apply(tail, fs', birdX));
  }

  /** No pipe is added: the pass leaves every pipe except the removed ones. */
  lemma {:induction false} ApplyLength(ps: seq<Pipe>, fs: seq<Fate>, birdX: real)
    requires |fs| == |ps|
    ensures |Apply(ps, fs, birdX)| == |ps| - RemovedCount(fs)
    ensures RemovedCount(fs) <= |fs|
  {
    if ps != [] {
      ApplyLength(ps[1..], fs[1..], birdX);
    }
  }

  /**
    The pipes that are not removed keep their order: the i-th pipe, if kept,
    is found after the kept pipes before it, moved if it was visited and
    untouched if it was skipped.
   */
  lemma {:induction false} ApplyAt(ps: seq<Pipe>, fs: seq<Fate>, birdX: real, i: nat)
    requires |fs| == |ps| && i < |ps| && fs[i] != Removed
    ensures RemovedCount(fs[..i]) <= i
    ensures i - RemovedCount(fs[..i]) < |Apply(ps, fs, birdX)|
    ensures Apply(ps, fs, birdX)[i - RemovedCount(fs[..i])]
              == if fs[i] == Skipped then ps[i] else VisitPipe(ps[i], birdX).pipe
  {
    ApplyLength(ps, fs, birdX);
    var head := Outcome(ps[0], fs[0], birdX);
    if i == 0 {
      assert fs[..0] == [];
    } else {
      ApplyAt(ps[1..], fs[1..], birdX, i - 1);
      assert fs[..i] == [fs[0]] + fs[1..][..i - 1];
      assert ([fs[0]] + fs[1..][..i - 1])[1..] == fs[1..][..i - 1];
      ApplyLength(ps[1..], fs[1..], birdX);
    }
  }

  /** The pass never changes a gap: every pipe it leaves has a gap that was in range if all gaps were. */
  lemma {:induction false} ApplyKeepsGaps(ps: seq<Pipe>, fs: seq<Fate>, birdX: real, height: real)
    requires |fs| == |ps|
    requires forall i :: 0 <= i < |ps| ==> GapInRange(height, ps[i].topHeight)
    ensures forall i :: 0 <= i < |Apply(ps, fs, birdX)| ==> GapInRange(height, Apply(ps, fs, birdX)[i].topHeight)
  {
    if ps != [] {
      ApplyKeepsGaps(ps[1..], fs[1..], birdX, height);
      var head: seq<Pipe> := Outcome(ps[0], fs[0], birdX);
      var rest: seq<Pipe> := Apply(ps[1..], fs[1..], birdX);
      forall i | 0 <= i < |head + rest|
        ensures GapInRange(height, (head + rest)[i].topHeight)
      {
        if i >= |head| {
          assert (head + rest)[i] == rest[i - |head|];
          assert GapInRange(height, rest[i - |head|].topHeight);
        } else {
          assert (head + rest)[i] == head[i];
          assert head[i].topHeight == ps[0].topHeight && GapInRange(height, ps[0].topHeight);
        }
      }
    }
  }

  /**
    Scoring is once per pipe: every point the pass scores turns one pipe from
    unscored to scored, so the scored pipes before the pass plus the points
    equal the scored pipes after it plus the scored pipes it removed.
   */
  lemma {:induction false} ScoreConservation(ps: seq<Pipe>, fs: seq<Fate>, birdX: real)
    requires |fs| == |ps|
    ensures PassedCount(ps) + Gain(ps, fs, birdX)
              == PassedCount(Apply(ps, fs, birdX)) + RetiredCount(ps, fs, birdX)
  {
    if ps != [] {
      ScoreConservation(ps[1..], fs[1..], birdX);
      PassedCountConcat(Outcome(ps[0], fs[0], birdX), Apply(ps[1..], fs[1..], birdX));
    }
  }

  /** A pipe that is already scored never scores again: a pass gains at most one point per unscored pipe. */
  lemma {:induction false} GainBound(ps: seq<Pipe>, fs: seq<Fate>, birdX: real)
    requires |fs| == |ps|
    ensures PassedCount(ps) <= |ps|
    ensures Gain(ps, fs, birdX) <= |ps| - PassedCount(ps)
  {
    if ps != [] {
      GainBound(ps[1..], fs[1..], birdX);
    }
  }

  lemma {:induction false} PassedCountConcat(a: seq<Pipe>, b: seq<Pipe>)
    ensures PassedCount(a + b) == PassedCount(a) + PassedCount(b)
  {
    if a == [] {
      assert a + b == b;
    } else {
      assert (a + b)[1..] == a[1..] + b;
      PassedCountConcat(a[1..], b);
    }
  }

  /**
    One frame of `updatePipes`: the spawn check, then the forEach pass over the
    whole list, stated through the fates of the spawned list.
   */
  function StepPipes(ps: seq<Pipe>, frameCount: nat, width: real, height: real, birdX: real, r: real, score: nat): (s: Sweep)
    requires 0.0 <= r < 1.0
    ensures var spawned := Spawn(ps, frameCount, width, height, r);
            var fs := Fates(spawned, false, birdX);
            s == Sweep(Apply(spawned, fs, birdX), score + Gain(spawned, fs, birdX))
  {
    var spawned := Spawn(ps, frameCount, width, height, r);
    ForEachMatchesFates([], spawned, |spawned|, birdX, score);
    assert [] + spawned == spawned;
    ForEachFrom(spawned, 0, |spawned|, birdX, score)
  }

  /** The scored pipes a frame's pass removes. */
  function StepRetired(ps: seq<Pipe>, frameCount: nat, width: real, height: real, birdX: real, r: real): nat
    requires 0.0 <= r < 1.0
  {
    var spawned := Spawn(ps, frameCount, width, height, r);
    RetiredCount(spawned, Fates(spawned, false, birdX), birdX)
  }

  /**
    A frame of the pipe stream keeps the accounts: the points it scores are the
    pipes scored in it, whether they are still on the list or were removed; and
    the spawned pipe's gap is in range, so all gaps stay in range.
   */
  lemma StepPipesAccounts(ps: seq<Pipe>, frameCount: nat, width: real, height: real, birdX: real, r: real, score: nat)
    requires 0.0 <= r < 1.0
    requires forall i :: 0 <= i < |ps| ==> GapInRange(height, ps[i].topHeight)
    ensures var s := StepPipes(ps, frameCount, width, height, birdX, r, score);
            s.score + PassedCount(ps) == score + PassedCount(s.pipes) + StepRetired(ps, frameCount, width, height, birdX, r) &&
            forall i :: 0 <= i < |s.pipes| ==> GapInRange(height, s.pipes[i].topHeight)
  {
    var spawned := Spawn(ps, frameCount, width, height, r);
    var fs := Fates(spawned, false, birdX);
    var added := spawned[|ps|..];
    assert spawned == ps + added;
    assert PassedCount(added) == 0 by {
      if added != [] {
        assert added == [NewPipe(width, height, r)];
      }
    }
    PassedCountConcat(ps, added);
    ScoreConservation(spawned, fs, birdX);
    ApplyKeepsGaps(spawned, fs, birdX, height);
  }

  lemma {:induction false} RemovedCountLast(fs: seq<Fate>)
    requires fs != []
    ensures RemovedCount(fs) == RemovedCount(fs[..|fs| - 1]) + (if fs[|fs| - 1] == Removed then 1 else 0)
  {
    if |fs| > 1 {
      RemovedCountLast(fs[1..]);
      assert fs[1..][..|fs| - 2] == fs[..|fs| - 1][1..];
    }
  }

  /**
    A pipe spawned this frame ends the list. It is moved in the same frame
    unless the pipe before it is removed in this frame, in which case it
    shifts into that index and keeps its spawn position until the next frame.
   */
  lemma SpawnedPipeLast(ps: seq<Pipe>, frameCount: nat, width: real, height: real, birdX: real, r: real, score: nat)
    requires 0.0 <= r < 1.0 && frameCount % SPAWN_INTERVAL == 0 && width > 0.0
    ensures var spawned := Spawn(ps, frameCount, width, height, r);
            var fs := Fates(spawned, false, birdX);
            var s := StepPipes(ps, frameCount, width, height, birdX, r, score);
            var p := NewPipe(width, height, r);
            s.pipes != [] &&
            s.pipes[|s.pipes| - 1] == if ps != [] && fs[|ps| - 1] == Removed then p else VisitPipe(p, birdX).pipe
  {
    var spawned := Spawn(ps, frameCount, width, height, r);
    var fs := Fates(spawned, false, birdX);
    var n := |ps|;
    FatesRule(spawned, false, birdX, n);
    assert fs[n] != Removed;
    ApplyAt(spawned, fs, birdX, n);
    ApplyLength(spawned, fs, birdX);
    RemovedCountLast(fs);
    assert fs[..|fs| - 1] == fs[..n];
  }

  /**
    The splice skip on two pipes: the first is moved off screen and removed,
    and the second, shifted into its index, is neither moved nor scored.
   */
  lemma SpliceSkipExample()
    ensures var first := Pipe(-80.0, 100.0, true);
            var second := Pipe(10.0, 200.0, false);
            ForEachFrom([first, second], 0, 2, BIRD_X, 4) == Sweep([second], 4)
  {
    var first := Pipe(-80.0, 100.0, true);
    var second := Pipe(10.0, 200.0, false);
    var ps := [first, second];
    var v := VisitPipe(first, BIRD_X);
    assert OffScreen(v.pipe) && !v.scored;
    var visited := ps[0 := v.pipe];
    assert visited[..0] + visited[1..] == [second];
    HolesSkipped([second], 1, 2, BIRD_X, 4);
  }
}
