/** The page's globals and handlers as they run: one object whose fields
    are the mutable globals of script.js, and whose methods update them in
    place, step by step, as the source's loops do. The constructor,
    OnResize, DrawFood, DrawObstacles, UpdateSnake and Animate are proved
    against the value-level function of the same step, so every property
    proved there (module Feeding, Hazards, Chain, Loop) holds of them;
    OnMouseMove and OnClick state their effect directly. */
module Snake {
  import opened Geometry
  import opened Entities
  import opened GameState
  import opened Feeding
  import opened Hazards
  import opened Chain
  import opened Loop

  /** The segment-building loop of script.js:53-55 and script.js:69-71:
      `count` copies of the point, pushed one by one. */
  method SegmentsAt(p: Point, count: nat) returns (s: seq<Point>)
    ensures |s| == count
    ensures forall k :: 0 <= k < |s| ==> s[k] == p
  {
    s := [];
    for i := 0 to count
      invariant |s| == i
      invariant forall k :: 0 <= k < i ==> s[k] == p
    {
      s := s + [p];
    }
  }

  class Game {
    var segments: seq<Point>
    var foodItems: seq<Food>
    var obstacles: seq<Obstacle>
    var score: int
    var snakeSpeed: real
    var isGameOver: bool
    var mouse: Point
    var width: nat
    var height: nat

    /** The globals as one value. */
    function State(): World
      reads this
    {
      World(segments, foodItems, obstacles, score, snakeSpeed, isGameOver, mouse, width, height)
    }

    predicate Valid()
      reads this
    {
      Invariant(State())
    }

    /** Page load (script.js:6-55) for a window of the given size and the
        random draws of the five food items and three obstacles. */
    constructor (innerWidth: nat, innerHeight: nat, foods: seq<FoodDraw>, hazards: seq<ObstacleDraw>)
      requires |foods| == FOOD_COUNT && |hazards| == INITIAL_OBSTACLES
      ensures State() == Initial(innerWidth, innerHeight, foods, hazards)
      ensures Valid()
    {
      width := innerWidth;
      height := innerHeight;
      var centre := Point(innerWidth as real / 2.0, innerHeight as real / 2.0);
      mouse := centre;
      foodItems := seq(FOOD_COUNT, k requires 0 <= k < FOOD_COUNT => NewFood(foods[k]));
      obstacles := seq(INITIAL_OBSTACLES, k requires 0 <= k < INITIAL_OBSTACLES => NewObstacle(hazards[k]));
      score := 0;
      snakeSpeed := INITIAL_SPEED;
      isGameOver := false;
      new;
      segments := SegmentsAt(centre, SegmentCount(innerWidth, innerHeight));
      assert segments == Repeat(centre, SegmentCount(innerWidth, innerHeight));
    }

    /** The pointer handler (script.js:58-61). */
    method OnMouseMove(clientX: real, clientY: real)
      modifies this
      ensures State() == old(State()).(mouse := Point(clientX, clientY))
      ensures old(Valid()) ==> Valid()
    {
      mouse := Point(clientX, clientY);
    }

    /** The resize handler (script.js:64-75). */
    method OnResize(innerWidth: nat, innerHeight: nat)
      modifies this
      ensures State() == Resize(old(State()), innerWidth, innerHeight)
      ensures old(Valid()) ==> Valid()
    {
      width := innerWidth;
      height := innerHeight;
      segments := SegmentsAt(mouse, SegmentCount(innerWidth, innerHeight));
      assert segments == Repeat(mouse, SegmentCount(innerWidth, innerHeight));
    }

    /** `drawFood` (script.js:127-169) without the drawing: the walk over
        the live array, `bobs[i]` being the bob of the item at index `i`
        and `spawns` the draws of the consumptions, in order. Returns
        whether reading the head threw. */
    method DrawFood(bobs: seq<real>, spawns: seq<Spawn>) returns (threw: bool)
      requires |foodItems| <= |bobs| && |foodItems| <= |spawns|
      modifies this
      ensures Run(State(), threw) == FoodPass(old(State()), bobs, spawns)
      ensures old(Valid()) ==> Valid()
    {
      ghost var w0 := State();
      if Invariant(w0) {
        FoodFromKeepsInvariant(w0, 0, bobs, spawns);
      }
      var n := |foodItems|;
      var rest := spawns;
      var i := 0;
      while i < n
        invariant i <= n == |foodItems| <= |bobs| && |foodItems| <= i + |rest|
        invariant FoodFrom(State(), i, bobs, rest) == FoodFrom(w0, 0, bobs, spawns)
        decreases n - i
      {
        var food := Bob(foodItems[i], bobs[i]);
        foodItems := foodItems[i := food];
        if |segments| == 0 {
          return true;
        }
        if Eats(segments[0], food) {
          var s := rest[0];
          rest := rest[1..];
          foodItems := foodItems[..i] + foodItems[i + 1..];
          segments := segments + [segments[|segments| - 1]];
          score := score + 1;
          snakeSpeed := snakeSpeed + SPEED_STEP;
          obstacles := obstacles + [NewObstacle(s.obstacle)];
          foodItems := foodItems + [NewFood(s.food)];
        }
        i := i + 1;
      }
      return false;
    }

    /** `drawObstacles` (script.js:172-212) without the drawing. Returns
        whether reading the head threw. */
    method DrawObstacles() returns (threw: bool)
      modifies this
      ensures Run(State(), threw) == ObstaclePass(old(State()))
      ensures old(Valid()) ==> Valid()
    {
      ghost var w0 := State();
      if Invariant(w0) {
        ObstaclePassKeepsInvariant(w0);
      }
      var i := 0;
      while i < |obstacles|
        invariant i <= |obstacles| == |w0.obstacles|
        invariant ObstaclesFrom(State(), i) == ObstaclesFrom(w0, 0)
        decreases |obstacles| - i
      {
        var o := obstacles[i];
        obstacles := obstacles[i := Spin(o)];
        if |segments| == 0 {
          return true;
        }
        if Hits(segments[0], o) {
          isGameOver := true;
        }
        i := i + 1;
      }
      return false;
    }

    /** `updateSnake` (script.js:78-93); `dir` stands for atan2, cos and
        sin. Returns whether reading the head threw. */
    method UpdateSnake(dir: (real, real) -> UnitHeading) returns (threw: bool)
      modifies this
      ensures Run(State(), threw) == SnakeStep(old(State()), dir)
      ensures old(Valid()) ==> Valid()
    {
      if isGameOver {
        return false;
      }
      if |segments| == 0 {
        return true;
      }
      segments := segments[0 := Pursue(segments[0], mouse, snakeSpeed)];
      ghost var moved := segments;
      var i := 1;
      while i < |segments|
        invariant 1 <= i <= |segments| == |moved|
        invariant ChainFrom(segments, i, dir) == ChainFrom(moved, 1, dir)
        invariant State() == old(State()).(segments := segments)
        decreases |segments| - i
      {
        segments := segments[i := Follow(segments[i - 1], segments[i], dir)];
        i := i + 1;
      }
      return false;
    }

    /** One call of `animate` (script.js:241-255): how it ends, and the
        state it leaves. */
    method Animate(bobs: seq<real>, spawns: seq<Spawn>, dir: (real, real) -> UnitHeading) returns (end: FrameEnd)
      requires |foodItems| <= |bobs| && |foodItems| <= |spawns|
      modifies this
      ensures FrameResult(State(), end) == Frame(old(State()), bobs, spawns, dir)
      ensures old(Valid()) ==> Valid()
    {
      ghost var w0 := State();
      var threw := DrawFood(bobs, spawns);
      if threw {
        end := Aborted;
      } else {
        threw := DrawObstacles();
        if threw {
          end := Aborted;
        } else {
          threw := UpdateSnake(dir);
          if threw {
            end := Aborted;
          } else if isGameOver {
            end := RetryScreen;
          } else {
            end := Reschedule;
          }
        }
      }
      if Invariant(w0) {
        FrameKeepsInvariant(w0, bobs, spawns, dir);
      }
    }

    /** The click handler (script.js:234-238): whether it calls
        `location.reload()`. */
    method OnClick() returns (reload: bool)
      ensures reload <==> isGameOver
    {
      reload := isGameOver;
    }
  }
}
