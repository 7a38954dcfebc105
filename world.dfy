/** The game's whole state as one value, the invariant every event keeps,
    the start state and the resize handler. The browser globals of the
    source (`segments`, `foodItems`, `obstacles`, `score`, `snakeSpeed`,
    `isGameOver`, `mouse`, `canvas.width`, `canvas.height`) are its fields. */
module GameState {
  import opened Geometry
  import opened Entities

  datatype World = World(
    segments: seq<Point>,      // index 0 is the head
    foodItems: seq<Food>,
    obstacles: seq<Obstacle>,
    score: int,
    snakeSpeed: real,
    isGameOver: bool,
    mouse: Point,
    width: nat,
    height: nat)

  /** The state one pass of a frame leaves, and whether the pass stopped
      with the TypeError that reading `segments[0].x` raises on a snake
      without segments. */
  datatype Run = Run(world: World, threw: bool)

  /** What holds from start to finish of a session: five food items, one
      obstacle per point scored beyond the first three, a speed that has
      risen by SPEED_STEP per point, and the fixed radii used by the
      collision tests. */
  predicate Invariant(w: World) {
    && |w.foodItems| == FOOD_COUNT
    && w.score >= 0
    && |w.obstacles| == INITIAL_OBSTACLES + w.score
    && w.snakeSpeed == INITIAL_SPEED + SPEED_STEP * w.score as real
    && (forall k :: 0 <= k < |w.foodItems| ==> w.foodItems[k].radius == FOOD_RADIUS)
    && (forall k :: 0 <= k < |w.obstacles| ==> w.obstacles[k].size == OBSTACLE_SIZE)
  }

  function Repeat(p: Point, count: nat): (s: seq<Point>)
    ensures |s| == count && forall k :: 0 <= k < count ==> s[k] == p
  {
    seq(count, _ => p)
  }

  /** The state when the page has loaded (script.js:6-55): the pointer at
      the centre of the canvas, every segment on it, random food and
      obstacles, no score, speed 0.1. */
  function Initial(width: nat, height: nat, foods: seq<FoodDraw>, hazards: seq<ObstacleDraw>): (w: World)
    requires |foods| == FOOD_COUNT && |hazards| == INITIAL_OBSTACLES
    ensures Invariant(w) && w.score == 0 && !w.isGameOver
    ensures w.width == width && w.height == height
    ensures w.mouse == Point(width as real / 2.0, height as real / 2.0)
    ensures |w.segments| == SegmentCount(width, height)
    ensures forall k :: 0 <= k < |w.segments| ==> w.segments[k] == w.mouse
    ensures forall k :: 0 <= k < FOOD_COUNT ==> w.foodItems[k] == NewFood(foods[k])
    ensures forall k :: 0 <= k < INITIAL_OBSTACLES ==> w.obstacles[k] == NewObstacle(hazards[k])
  {
    var mouse := Point(width as real / 2.0, height as real / 2.0);
    World(Repeat(mouse, SegmentCount(width, height)),
          seq(FOOD_COUNT, k requires 0 <= k < FOOD_COUNT => NewFood(foods[k])),
          seq(INITIAL_OBSTACLES, k requires 0 <= k < INITIAL_OBSTACLES => NewObstacle(hazards[k])),
          0, INITIAL_SPEED, false, mouse, width, height)
  }

  /** The resize handler (script.js:64-71): the canvas takes the new size
      and the chain is rebuilt as SegmentCount copies of the pointer. */
  function Resize(w: World, width: nat, height: nat): World {
    w.(width := width, height := height, segments := Repeat(w.mouse, SegmentCount(width, height)))
  }

  /** A resize throws away any growth: the chain is exactly SegmentCount
      copies of the pointer whatever its length was, and food, obstacles,
      score, speed and the game-over flag are untouched, so the invariant
      survives. */
  lemma ResizeRebuildsChain(w: World, width: nat, height: nat)
    ensures var r := Resize(w, width, height);
      && |r.segments| == SegmentCount(width, height)
      && (forall k :: 0 <= k < |r.segments| ==> r.segments[k] == w.mouse)
      && r == w.(segments := r.segments, width := width, height := height)
      && (Invariant(w) ==> Invariant(r))
  {
  }
}
