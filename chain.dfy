/** `updateSnake` (script.js:78-93): the head pursues the pointer, then
    every trailing segment, head to tail, is re-placed SEGMENT_LENGTH behind
    its already-moved predecessor. */
module Chain {
  import opened Geometry
  import opened GameState

  /** The rest of the head-to-tail loop from index `i`. Links before `i`
      are left alone; every link from `i` on is re-placed by Follow from
      its own old position and its predecessor's new one, and so ends up
      exactly SEGMENT_LENGTH from it. */
  function ChainFrom(s: seq<Point>, i: nat, dir: (real, real) -> UnitHeading): (r: seq<Point>)
    requires 1 <= i <= |s|
    ensures |r| == |s| && r[..i] == s[..i]
    ensures forall k :: i <= k < |r| ==> r[k] == Follow(r[k - 1], s[k], dir)
    ensures forall k :: i <= k < |r| ==> DistSq(r[k - 1], r[k]) == Sq(SEGMENT_LENGTH)
    decreases |s| - i
  {
    if i == |s| then s
    else
      var t := s[i := Follow(s[i - 1], s[i], dir)];
      var r := ChainFrom(t, i + 1, dir);
      assert r[i - 1] == r[..i + 1][i - 1] == s[i - 1];
      assert r[i] == r[..i + 1][i] == t[i];
      r
  }

  /** One call of `updateSnake`; `dir` stands for atan2, cos and sin. It
      returns early once the game is over, and reading the head of a snake
      without segments throws. */
  function SnakeStep(w: World, dir: (real, real) -> UnitHeading): Run {
    if w.isGameOver then Run(w, false)
    else if |w.segments| == 0 then Run(w, true)
    else
      var head := Pursue(w.segments[0], w.mouse, w.snakeSpeed);
      Run(w.(segments := ChainFrom(w.segments[0 := head], 1, dir)), false)
  }

  /** While the game runs, a step keeps the number of segments, moves the
      head the fraction `snakeSpeed` towards the pointer, leaves every
      later segment exactly SEGMENT_LENGTH from its predecessor, and
      changes nothing but the segments. */
  lemma SnakeStepEffect(w: World, dir: (real, real) -> UnitHeading)
    requires !w.isGameOver && |w.segments| > 0
    ensures var r := SnakeStep(w, dir);
      && !r.threw
      && |r.world.segments| == |w.segments|
      && r.world.segments[0] == Pursue(w.segments[0], w.mouse, w.snakeSpeed)
      && (forall k :: 1 <= k < |w.segments| ==>
            DistSq(r.world.segments[k - 1], r.world.segments[k]) == Sq(SEGMENT_LENGTH))
      && r.world == w.(segments := r.world.segments)
  {
    var s := w.segments[0 := Pursue(w.segments[0], w.mouse, w.snakeSpeed)];
    var r := ChainFrom(s, 1, dir);
    assert r[0] == r[..1][0] == s[0];
  }

  /** Once the game is over the step changes nothing (script.js:79). */
  lemma GameOverFreezesSnake(w: World, dir: (real, real) -> UnitHeading)
    requires w.isGameOver
    ensures SnakeStep(w, dir) == Run(w, false)
  {
  }

  /** With a true atan2, every re-placed link lies on the ray from its new
      predecessor through its own old position. */
  lemma ChainFollowsRays(s: seq<Point>, dir: (real, real) -> UnitHeading, k: nat)
    requires IsAtan2(dir) && 1 <= k < |s|
    ensures var r := ChainFrom(s, 1, dir); OnRay(r[k - 1], r[k], s[k])
  {
    var r := ChainFrom(s, 1, dir);
    FollowStaysOnRay(r[k - 1], s[k], dir);
    assert r[k] == Follow(r[k - 1], s[k], dir);
  }
}
