/** The gameplay half of `drawObstacles` (script.js:172-212): every
    obstacle turns by its rotation speed, and one the head touches ends the
    game. The test uses the position and size read before the turn; only
    the rotation changes. */
module Hazards {
  import opened Geometry
  import opened Entities
  import opened GameState

  /** The head touches the obstacle (script.js:203-208). */
  predicate Hits(head: Point, o: Obstacle) {
    Touches(head, Point(o.x, o.y), o.size)
  }

  /** One frame's turn of an obstacle (script.js:176). */
  function Spin(o: Obstacle): Obstacle {
    o.(rotation := o.rotation + o.rotationSpeed)
  }

  /** The rest of the `forEach` over the obstacles from index `i`. */
  function ObstaclesFrom(w: World, i: nat): Run
    requires i <= |w.obstacles|
    decreases |w.obstacles| - i
  {
    if i == |w.obstacles| then Run(w, false)
    else
      var o := w.obstacles[i];
      var spun := w.(obstacles := w.obstacles[i := Spin(o)]);
      if |w.segments| == 0 then Run(spun, true)
      else if Hits(w.segments[0], o) then ObstaclesFrom(spun.(isGameOver := true), i + 1)
      else ObstaclesFrom(spun, i + 1)
  }

  /** One obstacle pass of a frame. */
  function ObstaclePass(w: World): Run {
    ObstaclesFrom(w, 0)
  }

  /** On a snake with a head, the walk from `i` turns every obstacle from
      `i` on exactly once and leaves the others alone, keeps their number,
      ends the game exactly when it was over already or the head touches
      one of them, and changes nothing else. */
  lemma {:induction false} ObstaclesFromEffect(w: World, i: nat)
    requires i <= |w.obstacles| && |w.segments| > 0
    ensures var r := ObstaclesFrom(w, i);
      && !r.threw
      && |r.world.obstacles| == |w.obstacles|
      && r.world.obstacles[..i] == w.obstacles[..i]
      && (forall k :: i <= k < |w.obstacles| ==> r.world.obstacles[k] == Spin(w.obstacles[k]))
      && (r.world.isGameOver <==>
            w.isGameOver || exists k :: i <= k < |w.obstacles| && Hits(w.segments[0], w.obstacles[k]))
      && r.world == w.(obstacles := r.world.obstacles, isGameOver := r.world.isGameOver)
    decreases |w.obstacles| - i
  {
    if i < |w.obstacles| {
      var o := w.obstacles[i];
      var spun := w.(obstacles := w.obstacles[i := Spin(o)]);
      var next := if Hits(w.segments[0], o) then spun.(isGameOver := true) else spun;
      ObstaclesFromEffect(next, i + 1);
      var r := ObstaclesFrom(next, i + 1).world;
      assert r.obstacles[..i] == r.obstacles[..i + 1][..i];
      assert r.obstacles[i] == r.obstacles[..i + 1][i];
      if r.isGameOver && !w.isGameOver && !Hits(w.segments[0], o) {
        var k :| i + 1 <= k < |w.obstacles| && Hits(w.segments[0], next.obstacles[k]);
        assert Hits(w.segments[0], w.obstacles[k]);
      }
      if exists k :: i <= k < |w.obstacles| && Hits(w.segments[0], w.obstacles[k]) {
        var k :| i <= k < |w.obstacles| && Hits(w.segments[0], w.obstacles[k]);
        if k > i {
          assert Hits(w.segments[0], next.obstacles[k]);
        }
      }
    }
  }

  /** On a snake without segments the pass turns the first obstacle and
      stops with the TypeError of reading `segments[0].x`. */
  lemma EmptySnakeThrows(w: World)
    requires |w.segments| == 0 && |w.obstacles| > 0
    ensures ObstaclePass(w) == Run(w.(obstacles := w.obstacles[0 := Spin(w.obstacles[0])]), true)
  {
  }

  /** The pass can set the game-over flag but never clear it, and keeps
      the session invariant. */
  lemma ObstaclePassKeepsInvariant(w: World)
    requires Invariant(w)
    ensures var r := ObstaclePass(w).world;
      Invariant(r) && (w.isGameOver ==> r.isGameOver)
  {
    if |w.segments| > 0 {
      ObstaclesFromEffect(w, 0);
      var r := ObstaclePass(w).world;
      forall k | 0 <= k < |r.obstacles|
        ensures r.obstacles[k].size == OBSTACLE_SIZE
      {
        assert r.obstacles[k] == Spin(w.obstacles[k]);
      }
    }
  }

  /** A head at (200, 200) touches an obstacle at (210, 205), so a pass in
      which that obstacle takes part ends the game. */
  lemma HitScenario(w: World, i: nat)
    requires i < |w.obstacles| && |w.segments| > 0
    requires w.segments[0] == Point(200.0, 200.0)
    requires w.obstacles[i].x == 210.0 && w.obstacles[i].y == 205.0 && w.obstacles[i].size == OBSTACLE_SIZE
    ensures ObstaclePass(w).world.isGameOver
  {
    ObstaclesFromEffect(w, 0);
    assert Hits(w.segments[0], w.obstacles[i]);
  }
}
